/**
 Concatenating quantized tensors (fp8.rs, `concat` and `concat_many`). Tensors that end on a block of the common size
 keep their bytes and scales, hence exactly their values; others are dequantized and quantized once more.
 */
module Fp8Concat {
  import opened Arithmetic
  import opened Fp8Tensor

  /** Appending bytes and scales. */
  function Append(a: Tensor, b: Tensor): Tensor {
    Tensor(a.q + b.q, a.scales + b.scales, a.block, a.n + b.n)
  }

  /** Appending is exact: `a` ends on a block of the common size. The last block of `b` may be short. */
  predicate Appends(a: Tensor, b: Tensor) {
    TensorOk(a) && TensorOk(b) && a.n > 0 && a.block == b.block && a.n % a.block == 0
  }

  /** Whole blocks in front of `b`'s elements shift its block numbers. */
  lemma AppendIsOk(a: Tensor, b: Tensor)
    requires Appends(a, b)
    ensures TensorOk(Append(a, b))
  {
    var k := WholeBlocks(a);
    DivCeilAddMultiple(b.n, k, a.block);
    SmallDivCeil(0, a.block);
  }

  lemma WholeBlocks(a: Tensor) returns (k: nat)
    requires TensorOk(a) && a.block > 0 && a.n % a.block == 0
    ensures a.n == k * a.block && |a.scales| == k
  {
    k := a.n / a.block;
    assert a.n == k * a.block;
    DivCeilAddMultiple(0, k, a.block);
    SmallDivCeil(0, a.block);
  }

  /** Dequantizing an appended tensor is appending the dequantized parts. */
  lemma DequantizeDistributes(c: Codec, a: Tensor, b: Tensor)
    requires Appends(a, b)
    ensures TensorOk(Append(a, b))
    ensures DequantizedOf(c, Append(a, b)) == DequantizedOf(c, a) + DequantizedOf(c, b)
  {
    AppendIsOk(a, b);
    var t := Append(a, b);
    forall i: nat | i < t.n
      ensures ValueAt(c, t, i) == if i < a.n then ValueAt(c, a, i) else ValueAt(c, b, i - a.n)
    {
      if i < a.n {
        LeftValue(c, a, b, i);
      } else {
        RightValue(c, a, b, i - a.n);
      }
    }
  }

  lemma LeftValue(c: Codec, a: Tensor, b: Tensor, i: nat)
    requires Appends(a, b) && TensorOk(Append(a, b)) && i < a.n
    ensures ValueAt(c, Append(a, b), i) == ValueAt(c, a, i)
  {
    hide Scale, DivCeil;
    ScaleInside(a, i);
    var k := Quotient(i, a.block);
    assert Append(a, b).scales[k] == a.scales[k];
  }

  lemma RightValue(c: Codec, a: Tensor, b: Tensor, j: nat)
    requires Appends(a, b) && TensorOk(Append(a, b)) && j < b.n
    ensures ValueAt(c, Append(a, b), a.n + j) == ValueAt(c, b, j)
  {
    hide Scale, DivCeil;
    var k := WholeBlocks(a);
    var t := Append(a, b);
    AddMultiple(j, k, a.block);
    ScaleInside(b, j);
    assert t.q[a.n + j] == b.q[j] && t.scales[k + Quotient(j, a.block)] == b.scales[Quotient(j, a.block)];
  }

  /** The result of `concat`, a tensor again. */
  function ConcatOf(c: Codec, a: Tensor, b: Tensor): (t: Tensor)
    requires TensorOk(a) && TensorOk(b)
    ensures TensorOk(t)
  {
    if a.n == 0 then b else if b.n == 0 then a
    else if Appends(a, b) then AppendIsOk(a, b); Append(a, b)
    else QuantizeIsOk(c, DequantizedOf(c, a) + DequantizedOf(c, b));
         QuantizeOf(c, DequantizedOf(c, a) + DequantizedOf(c, b))
  }

  lemma QuantizeIsOk(c: Codec, w: seq<real>)
    ensures TensorOk(QuantizeOf(c, w))
  {
    if w != [] {
      QuantizedIsOk(c, w, |w|);
    }
  }

  /**
   Aligned tensors keep their bytes and scales, hence exactly their values; others keep the values of both up to
   quantizing them once more with one scale.
   */
  method Concat(c: Codec, a: Tensor, b: Tensor) returns (t: Tensor)
    requires TensorOk(a) && TensorOk(b)
    ensures t == ConcatOf(c, a, b) && TensorOk(t) && t.n == a.n + b.n
    ensures a.n == 0 || b.n == 0 || (a.block == b.block && a.n % a.block == 0) ==>
              && t.q == a.q + b.q && t.scales == a.scales + b.scales
              && DequantizedOf(c, t) == DequantizedOf(c, a) + DequantizedOf(c, b)
    ensures a.n > 0 && b.n > 0 && (a.block != b.block || a.n % a.block != 0) ==>
              t == QuantizeOf(c, DequantizedOf(c, a) + DequantizedOf(c, b))
  {
    hide ValueAt, DivCeil, BlockCodes, BlockScales;
    if a.n == 0 {
      return b;
    }
    if b.n == 0 {
      return a;
    }
    if a.block == b.block && a.n % a.block == 0 {
      DequantizeDistributes(c, a, b);
      return Tensor(a.q + b.q, a.scales + b.scales, a.block, a.n + b.n);
    }
    var v := Dequantize(c, a);
    var u := Dequantize(c, b);
    t := Quantize(c, v + u);
  }

  // ----- many parts

  predicate AllOk(parts: seq<Tensor>) {
    forall i :: 0 <= i < |parts| ==> TensorOk(parts[i])
  }

  predicate AllAligned(parts: seq<Tensor>, block: nat) {
    block > 0 && forall i :: 0 <= i < |parts| ==> parts[i].block == block && parts[i].n % block == 0
  }

  /** Appending all parts in order. */
  function AppendAll(parts: seq<Tensor>, block: nat): Tensor {
    if parts == [] then Tensor([], [], block, 0) else Append(AppendAll(parts[..|parts| - 1], block), parts[|parts| - 1])
  }

  function ValuesOf(c: Codec, parts: seq<Tensor>): seq<real>
    requires AllOk(parts)
  {
    if parts == [] then [] else
      ValuesOf(c, parts[..|parts| - 1]) + DequantizedOf(c, parts[|parts| - 1])
  }

  predicate Aligned(t: Tensor, block: nat) {
    TensorOk(t) && block > 0 && t.block == block && t.n % block == 0
  }

  /** One more aligned part, either of the two possibly empty. */
  lemma AppendAligned(c: Codec, a: Tensor, b: Tensor, block: nat)
    requires Aligned(a, block) && Aligned(b, block)
    ensures Aligned(Append(a, b), block) && ConcatOf(c, a, b) == Append(a, b)
    ensures DequantizedOf(c, Append(a, b)) == DequantizedOf(c, a) + DequantizedOf(c, b)
  {
    hide ValueAt, DivCeil;
    if a.n == 0 {
      assert Append(a, b) == b;
    } else if b.n == 0 {
      assert Append(a, b) == a;
    } else {
      DequantizeDistributes(c, a, b);
      var k := WholeBlocks(a);
      AddMultiple(b.n, k, block);
    }
  }

  lemma {:induction false} AppendAllIsOk(c: Codec, parts: seq<Tensor>, block: nat)
    requires AllOk(parts) && AllAligned(parts, block)
    ensures Aligned(AppendAll(parts, block), block)
    ensures DequantizedOf(c, AppendAll(parts, block)) == ValuesOf(c, parts)
  {
    hide DivCeil, ValueAt;
    if parts == [] {
      assert TensorOk(AppendAll(parts, block));
    } else {
      var front := parts[..|parts| - 1];
      AppendAllIsOk(c, front, block);
      AppendAligned(c, AppendAll(front, block), parts[|parts| - 1], block);
    }
  }

  /** The result of the single pass, a tensor again. */
  function ManyOf(c: Codec, parts: seq<Tensor>): (t: Tensor)
    requires AllOk(parts)
    ensures TensorOk(t)
  {
    if parts == [] then EMPTY
    else if AllAligned(parts, parts[0].block) then
      AppendAllIsOk(c, parts, parts[0].block);
      AppendAll(parts, parts[0].block)
    else
      QuantizeIsOk(c, ValuesOf(c, parts));
      QuantizeOf(c, ValuesOf(c, parts))
  }

  /** The single pass over all parts: aligned parts keep their bytes and scales, hence exactly their values. */
  method ConcatMany(c: Codec, parts: seq<Tensor>) returns (t: Tensor)
    requires AllOk(parts)
    ensures t == ManyOf(c, parts) && TensorOk(t)
    ensures parts != [] && AllAligned(parts, parts[0].block) ==>
              t == AppendAll(parts, parts[0].block) && DequantizedOf(c, t) == ValuesOf(c, parts)
  {
    hide ValueAt, DivCeil, QuantizedOf, TensorOk;
    if parts == [] {
      return EMPTY;
    }
    var block := parts[0].block;
    var aligned := CheckAligned(parts, block);
    if aligned {
      var q: seq<Code>, scales: seq<real>, n: nat := [], [], 0;
      for i := 0 to |parts|
        invariant Tensor(q, scales, block, n) == AppendAll(parts[..i], block)
      {
        q, scales, n := q + parts[i].q, scales + parts[i].scales, n + parts[i].n;
        assert parts[..i + 1][..i] == parts[..i];
      }
      assert parts[..|parts|] == parts;
      AppendAllIsOk(c, parts, block);
      return Tensor(q, scales, block, n);
    }
    var v: seq<real> := [];
    for i := 0 to |parts|
      invariant AllOk(parts[..i]) && v == ValuesOf(c, parts[..i])
    {
      var u := Dequantize(c, parts[i]);
      v := v + u;
      assert parts[..i + 1][..i] == parts[..i];
    }
    assert parts[..|parts|] == parts;
    t := Quantize(c, v);
  }

  method CheckAligned(parts: seq<Tensor>, block: nat) returns (ok: bool)
    ensures ok <==> AllAligned(parts, block)
  {
    if block == 0 {
      return false;
    }
    for i := 0 to |parts|
      invariant forall k :: 0 <= k < i ==> parts[k].block == block && parts[k].n % block == 0
    {
      if parts[i].block != block || parts[i].n % block != 0 {
        return false;
      }
    }
    ok := true;
  }

  /** The left fold of `concat` over the parts. */
  function Fold(c: Codec, parts: seq<Tensor>): (t: Tensor)
    requires parts != [] && AllOk(parts)
    ensures TensorOk(t)
  {
    if |parts| == 1 then parts[0] else ConcatOf(c, Fold(c, parts[..|parts| - 1]), parts[|parts| - 1])
  }

  /** For aligned parts the single pass is the left fold, whatever is empty among them. */
  lemma {:induction false} ConcatManyIsFold(c: Codec, parts: seq<Tensor>, block: nat)
    requires parts != [] && AllOk(parts) && AllAligned(parts, block)
    ensures Fold(c, parts) == ManyOf(c, parts) == AppendAll(parts, block)
  {
    hide TensorOk, ConcatOf, DequantizedOf;
    var last := |parts| - 1;
    var front, b := parts[..last], parts[last];
    if last == 0 {
      AppendsToNothing(b, block);
    } else {
      ConcatManyIsFold(c, front, block);
      AppendAllIsOk(c, front, block);
      AppendAligned(c, AppendAll(front, block), b, block);
    }
  }

  lemma AppendsToNothing(b: Tensor, block: nat)
    requires b.block == block
    ensures AppendAll([b], block) == b
  {
    assert [b][..0] == [];
    assert AppendAll([], block) == Tensor([], [], block, 0);
  }

  /**
   Parts that are not all aligned: the single pass quantizes all values at once, so the fold agrees exactly if its
   last step quantizes too, to the same codes. A last step that appends never agrees, and one that finds nothing on
   one side agrees exactly if the other side is already what quantizing its values gives.
   */
  lemma FoldIsManyIff(c: Codec, parts: seq<Tensor>)
    requires |parts| > 1 && AllOk(parts) && !AllAligned(parts, parts[0].block)
    ensures var front, last := parts[..|parts| - 1], parts[|parts| - 1];
            Fold(c, parts) == ManyOf(c, parts) <==>
              if Fold(c, front).n == 0 then last == QuantizeOf(c, DequantizedOf(c, last))
              else if last.n == 0 then Fold(c, front) == QuantizeOf(c, ValuesOf(c, front))
              else
                && !Appends(Fold(c, front), last)
                && QuantizeOf(c, DequantizedOf(c, Fold(c, front)) + DequantizedOf(c, last))
                   == QuantizeOf(c, ValuesOf(c, front) + DequantizedOf(c, last))
  {
    hide ValueAt, DivCeil;
    var front, last := parts[..|parts| - 1], parts[|parts| - 1];
    var f := Fold(c, front);
    ValueCount(c, parts);
    ValueCount(c, front);
    FoldCount(c, front);
    if f.n == 0 {
      assert ValuesOf(c, parts) == DequantizedOf(c, last);
    } else if last.n == 0 {
      assert ValuesOf(c, parts) == ValuesOf(c, front);
    } else if Appends(f, last) {
      assert f.n >= f.block by {
        var k := WholeBlocks(f);
        assert k > 0;
        MulMono(1, k, f.block);
      }
      assert Fold(c, parts).block < |ValuesOf(c, parts)| == ManyOf(c, parts).block;
    }
  }

  /** Two parts with elements that are not both aligned: the two agree exactly if `concat` does not append them. */
  lemma TwoPartsIff(c: Codec, a: Tensor, b: Tensor)
    requires AllOk([a, b]) && a.n > 0 && b.n > 0 && !AllAligned([a, b], a.block)
    ensures Fold(c, [a, b]) == ManyOf(c, [a, b]) <==> !Appends(a, b)
  {
    hide ValueAt, DivCeil, QuantizeOf, DequantizedOf, ConcatOf, ManyOf;
    var parts := [a, b];
    assert parts[..|parts| - 1] == [a] && parts[|parts| - 1] == b && Fold(c, [a]) == a;
    assert ValuesOf(c, [a]) == DequantizedOf(c, a) by {
      assert [a][..0] == [];
      assert ValuesOf(c, [a][..0]) == [];
    }
    FoldIsManyIff(c, parts);
  }

  function Elements(parts: seq<Tensor>): nat {
    if parts == [] then 0 else Elements(parts[..|parts| - 1]) + parts[|parts| - 1].n
  }

  lemma {:induction false} ValueCount(c: Codec, parts: seq<Tensor>)
    requires AllOk(parts)
    ensures |ValuesOf(c, parts)| == Elements(parts)
  {
    if parts != [] {
      ValueCount(c, parts[..|parts| - 1]);
    }
  }

  lemma {:induction false} FoldCount(c: Codec, parts: seq<Tensor>)
    requires parts != [] && AllOk(parts)
    ensures Fold(c, parts).n == Elements(parts)
  {
    hide ValueAt, DivCeil, TensorOk;
    if |parts| > 1 {
      FoldCount(c, parts[..|parts| - 1]);
    } else {
      assert Elements(parts[..0]) == 0;
    }
  }

  /** Aligned parts with any last one behind them: the two agree exactly if that is aligned too or has another block. */
  lemma AlignedFrontIff(c: Codec, front: seq<Tensor>, last: Tensor, block: nat)
    requires front != [] && AllOk(front) && AllAligned(front, block) && Elements(front) > 0
    requires TensorOk(last) && last.n > 0
    ensures AllOk(front + [last])
    ensures Fold(c, front + [last]) == ManyOf(c, front + [last]) <==>
              last.block != block || last.n % block == 0
  {
    hide ValueAt, DivCeil, Fold, ManyOf, QuantizeOf, DequantizedOf, TensorOk;
    var parts := front + [last];
    assert parts[..|parts| - 1] == front && parts[|parts| - 1] == last && parts[0] == front[0];
    assert parts[0].block == block;
    assert AllOk(parts);
    if last.block == block && last.n % block == 0 {
      ConcatManyIsFold(c, parts, block);
    } else {
      assert !AllAligned(parts, block) by {
        assert parts[|front|] == last;
      }
      ConcatManyIsFold(c, front, block);
      AppendAllIsOk(c, front, block);
      FoldCount(c, front);
      FoldIsManyIff(c, parts);
    }
  }

  /** An empty default tensor in front of aligned parts: the two disagree as soon as there are two blocks. */
  lemma EmptyFrontDisagrees(c: Codec, rest: seq<Tensor>, block: nat)
    requires rest != [] && AllOk(rest) && AllAligned(rest, block) && Elements(rest) > block
    ensures AllOk([EMPTY] + rest) && Fold(c, [EMPTY] + rest) == AppendAll(rest, block)
    ensures Fold(c, [EMPTY] + rest) != ManyOf(c, [EMPTY] + rest)
  {
    hide ValueAt, DivCeil, DequantizedOf, ConcatOf;
    var parts := [EMPTY] + rest;
    FoldAfterEmpty(c, rest);
    ConcatManyIsFold(c, rest, block);
    AppendAllIsOk(c, rest, block);
    ValueCount(c, parts);
    SumAfterEmpty(rest);
    assert parts[0].block == 0;
    assert ManyOf(c, parts).block == Elements(rest);
  }

  lemma {:induction false} SumAfterEmpty(rest: seq<Tensor>)
    ensures Elements([EMPTY] + rest) == Elements(rest)
  {
    var parts := [EMPTY] + rest;
    if rest == [] {
      assert parts[..0] == [];
    } else {
      assert parts[..|parts| - 1] == [EMPTY] + rest[..|rest| - 1];
      SumAfterEmpty(rest[..|rest| - 1]);
    }
  }

  lemma {:induction false} FoldAfterEmpty(c: Codec, rest: seq<Tensor>)
    requires rest != [] && AllOk(rest)
    ensures AllOk([EMPTY] + rest) && Fold(c, [EMPTY] + rest) == Fold(c, rest)
  {
    hide ValueAt, DivCeil, DequantizedOf;
    var parts, last := [EMPTY] + rest, |rest| - 1;
    assert parts[..|parts| - 1] == [EMPTY] + rest[..last];
    assert AllOk(parts);
    if last == 0 {
      assert [EMPTY] + rest[..0] == [EMPTY];
    } else {
      FoldAfterEmpty(c, rest[..last]);
    }
  }

  /** Quantizing a concatenation is concatenating the quantizations, when the first part ends on a block. */
  lemma {:induction false} QuantizeDistributes(c: Codec, v: seq<real>, w: seq<real>, block: nat)
    requires block > 0 && |v| % block == 0
    ensures QuantizedOf(c, v + w, block) == Append(QuantizedOf(c, v, block), QuantizedOf(c, w, block))
    decreases |v|
  {
    hide EncodeAll, ScaleOf, BlockCodes, BlockScales;
    var all, whole := v + w, QuantizedOf(c, v + w, block);
    if v == [] {
      NoBlocks(c, v, block);
      assert all == w && whole == Append(QuantizedOf(c, v, block), QuantizedOf(c, w, block));
    } else {
      var k := |v| / block;
      assert |v| == k * block && k > 0;
      MulMono(1, k, block);
      AddMultiple(|v| - block, 1, block);
      var rest := v[block..];
      QuantizeDistributes(c, rest, w, block);
      FirstBlock(c, v, block);
      FirstBlock(c, all, block);
      assert all[..block] == v[..block] && all[block..] == rest + w;
      var scale := ScaleOf(v[..block]);
      Associates(EncodeAll(c, v[..block], scale), BlockCodes(c, rest, block), BlockCodes(c, w, block));
      Associates([scale], BlockScales(rest, block), BlockScales(w, block));
    }
  }

  lemma FirstBlock(c: Codec, w: seq<real>, block: nat)
    requires 0 < block <= |w|
    ensures BlockCodes(c, w, block) == EncodeAll(c, w[..block], ScaleOf(w[..block])) + BlockCodes(c, w[block..], block)
    ensures BlockScales(w, block) == [ScaleOf(w[..block])] + BlockScales(w[block..], block)
  {
  }

  lemma Associates<T>(a: seq<T>, b: seq<T>, d: seq<T>)
    ensures a + (b + d) == (a + b) + d
  {
  }
}
