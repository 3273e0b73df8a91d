/**
 The patch layout of a preprocessed image (image_processor.rs): the eight nested loops enumerate the resized pixels
 patch by patch, channel by channel, each `temporal` times, and no pixel is missed or repeated otherwise.
 */
module PatchLayout {
  import opened Arithmetic

  /** Patch side, merged patches a side, temporal copies, and the grid in merged units. */
  datatype Layout = Layout(patch: nat, merge: nat, temporal: nat, rows: nat, cols: nat)

  const CHANNELS: nat := 3

  predicate LayoutOk(l: Layout) {
    l.patch > 0 && l.merge > 0 && l.temporal > 0
  }

  function Height(l: Layout): nat {
    l.rows * l.merge * l.patch
  }

  function Width(l: Layout): nat {
    l.cols * l.merge * l.patch
  }

  /** The loop counters of one output value, outermost first. */
  datatype Digits = Digits(row: nat, col: nat, mh: nat, mw: nat, c: nat, copy: nat, py: nat, px: nat)

  predicate DigitsOk(l: Layout, d: Digits) {
    && d.row < l.rows && d.col < l.cols && d.mh < l.merge && d.mw < l.merge
    && d.c < CHANNELS && d.copy < l.temporal && d.py < l.patch && d.px < l.patch
  }

  /** A value of the resized image, and which of its copies. */
  datatype Source = Source(y: nat, x: nat, c: nat, copy: nat)

  predicate SourceOk(l: Layout, s: Source) {
    s.y < Height(l) && s.x < Width(l) && s.c < CHANNELS && s.copy < l.temporal
  }

  // ----- mixed-radix numbers: the quotient drops the last digit, which is the remainder

  /** Appending a digit. */
  function Add(hi: nat, radix: nat, digit: nat): nat {
    hi * radix + digit
  }

  lemma DigitOf(hi: nat, radix: nat, digit: nat)
    requires digit < radix
    ensures Quotient(Add(hi, radix, digit), radix) == hi && Remainder(Add(hi, radix, digit), radix) == digit
  {
    FieldsUnique(radix, Add(hi, radix, digit), hi, digit);
  }

  lemma Rejoin(n: nat, radix: nat)
    requires radix > 0
    ensures Add(Quotient(n, radix), radix, Remainder(n, radix)) == n && Remainder(n, radix) < radix
  {
  }

  lemma Carry(hi: nat, radix: nat)
    ensures Add(hi, radix, radix) == Add(hi + 1, radix, 0)
  {
    Distribute(hi, 1, radix);
  }

  lemma Below(hi: nat, digit: nat, radix: nat, top: nat)
    requires digit < radix && hi < top
    ensures Add(hi, radix, digit) < top * radix
  {
    MulMono(hi + 1, top, radix);
    Distribute(hi, 1, radix);
  }

  lemma TopDigit(n: nat, radix: nat, top: nat)
    requires radix > 0 && n < top * radix
    ensures Quotient(n, radix) < top
  {
    Rejoin(n, radix);
    LessFromMul(Quotient(n, radix), top, radix);
  }

  // ----- positions in the output

  function Block(l: Layout, d: Digits): nat {
    Add(Add(Add(d.row, l.cols, d.col), l.merge, d.mh), l.merge, d.mw)
  }

  function Plane(l: Layout, d: Digits): nat {
    Add(Add(Block(l, d), CHANNELS, d.c), l.temporal, d.copy)
  }

  /** Where the value with these loop counters stands. */
  function Index(l: Layout, d: Digits): nat {
    Add(Add(Plane(l, d), l.patch, d.py), l.patch, d.px)
  }

  /** The loop counters of the value at position `k`. */
  function DigitsAt(l: Layout, k: nat): Digits
    requires LayoutOk(l) && l.cols > 0
  {
    var a := Quotient(k, l.patch);
    var plane := Quotient(a, l.patch);
    var b := Quotient(plane, l.temporal);
    var block := Quotient(b, CHANNELS);
    var e := Quotient(block, l.merge);
    var f := Quotient(e, l.merge);
    Digits(Quotient(f, l.cols), Remainder(f, l.cols), Remainder(e, l.merge), Remainder(block, l.merge),
           Remainder(b, CHANNELS), Remainder(plane, l.temporal), Remainder(a, l.patch), Remainder(k, l.patch))
  }

  lemma DigitsOfIndex(l: Layout, d: Digits)
    requires LayoutOk(l) && DigitsOk(l, d)
    ensures DigitsAt(l, Index(l, d)) == d
  {
    var f := Add(d.row, l.cols, d.col);
    var e := Add(f, l.merge, d.mh);
    var block := Add(e, l.merge, d.mw);
    var b := Add(block, CHANNELS, d.c);
    var plane := Add(b, l.temporal, d.copy);
    var a := Add(plane, l.patch, d.py);
    DigitOf(a, l.patch, d.px);
    DigitOf(plane, l.patch, d.py);
    DigitOf(b, l.temporal, d.copy);
    DigitOf(block, CHANNELS, d.c);
    DigitOf(e, l.merge, d.mw);
    DigitOf(f, l.merge, d.mh);
    DigitOf(d.row, l.cols, d.col);
  }

  /** Number of output values. */
  function Total(l: Layout): nat {
    l.rows * l.cols * l.merge * l.merge * CHANNELS * l.temporal * l.patch * l.patch
  }

  lemma IndexOfDigits(l: Layout, k: nat)
    requires LayoutOk(l) && k < Total(l)
    ensures l.cols > 0 && DigitsOk(l, DigitsAt(l, k)) && Index(l, DigitsAt(l, k)) == k
  {
    var a := Quotient(k, l.patch);
    var plane := Quotient(a, l.patch);
    var b := Quotient(plane, l.temporal);
    var block := Quotient(b, CHANNELS);
    var e := Quotient(block, l.merge);
    var f := Quotient(e, l.merge);
    Rejoin(k, l.patch);
    Rejoin(a, l.patch);
    Rejoin(plane, l.temporal);
    Rejoin(b, CHANNELS);
    Rejoin(block, l.merge);
    Rejoin(e, l.merge);
    Rejoin(f, l.cols);
    TopDigit(k, l.patch, l.rows * l.cols * l.merge * l.merge * CHANNELS * l.temporal * l.patch);
    TopDigit(a, l.patch, l.rows * l.cols * l.merge * l.merge * CHANNELS * l.temporal);
    TopDigit(plane, l.temporal, l.rows * l.cols * l.merge * l.merge * CHANNELS);
    TopDigit(b, CHANNELS, l.rows * l.cols * l.merge * l.merge);
    TopDigit(block, l.merge, l.rows * l.cols * l.merge);
    TopDigit(e, l.merge, l.rows * l.cols);
    TopDigit(f, l.cols, l.rows);
  }

  // ----- positions in the image

  /** The image value that the loops read with these counters. */
  function SourceOf(l: Layout, d: Digits): Source {
    Source(Add(Add(d.row, l.merge, d.mh), l.patch, d.py), Add(Add(d.col, l.merge, d.mw), l.patch, d.px), d.c, d.copy)
  }

  function DigitsFor(l: Layout, s: Source): Digits
    requires LayoutOk(l)
  {
    var v, u := Quotient(s.y, l.patch), Quotient(s.x, l.patch);
    Digits(Quotient(v, l.merge), Quotient(u, l.merge), Remainder(v, l.merge), Remainder(u, l.merge), s.c, s.copy,
           Remainder(s.y, l.patch), Remainder(s.x, l.patch))
  }

  lemma SourceIsInside(l: Layout, d: Digits)
    requires LayoutOk(l) && DigitsOk(l, d)
    ensures SourceOk(l, SourceOf(l, d)) && DigitsFor(l, SourceOf(l, d)) == d
  {
    var v, u := Add(d.row, l.merge, d.mh), Add(d.col, l.merge, d.mw);
    Below(d.row, d.mh, l.merge, l.rows);
    Below(d.col, d.mw, l.merge, l.cols);
    Below(v, d.py, l.patch, l.rows * l.merge);
    Below(u, d.px, l.patch, l.cols * l.merge);
    DigitOf(v, l.patch, d.py);
    DigitOf(u, l.patch, d.px);
    DigitOf(d.row, l.merge, d.mh);
    DigitOf(d.col, l.merge, d.mw);
  }

  lemma SourceIsReached(l: Layout, s: Source)
    requires LayoutOk(l) && SourceOk(l, s)
    ensures DigitsOk(l, DigitsFor(l, s)) && SourceOf(l, DigitsFor(l, s)) == s
  {
    var v, u := Quotient(s.y, l.patch), Quotient(s.x, l.patch);
    Rejoin(s.y, l.patch);
    Rejoin(s.x, l.patch);
    Rejoin(v, l.merge);
    Rejoin(u, l.merge);
    TopDigit(s.y, l.patch, l.rows * l.merge);
    TopDigit(s.x, l.patch, l.cols * l.merge);
    TopDigit(v, l.merge, l.rows);
    TopDigit(u, l.merge, l.cols);
  }

  function SourceAt(l: Layout, k: nat): Source
    requires LayoutOk(l) && l.cols > 0
  {
    SourceOf(l, DigitsAt(l, k))
  }

  function PositionOf(l: Layout, s: Source): nat
    requires LayoutOk(l)
  {
    Index(l, DigitsFor(l, s))
  }

  /**
   The layout is a permutation of the image: every value of every copy stands at exactly one position, and every
   position holds exactly one of them.
   */
  lemma LayoutIsBijective(l: Layout, s: Source, k: nat)
    requires LayoutOk(l)
    ensures SourceOk(l, s) ==>
              PositionOf(l, s) < Total(l) && l.cols > 0 && SourceAt(l, PositionOf(l, s)) == s
    ensures k < Total(l) ==> l.cols > 0 && SourceOk(l, SourceAt(l, k)) && PositionOf(l, SourceAt(l, k)) == k
  {
    if SourceOk(l, s) {
      SourceIsReached(l, s);
      IndexIsBelow(l, DigitsFor(l, s));
      DigitsOfIndex(l, DigitsFor(l, s));
    }
    if k < Total(l) {
      IndexOfDigits(l, k);
      SourceIsInside(l, DigitsAt(l, k));
    }
  }

  lemma IndexIsBelow(l: Layout, d: Digits)
    requires LayoutOk(l) && DigitsOk(l, d)
    ensures Index(l, d) < Total(l)
  {
    var f := Add(d.row, l.cols, d.col);
    var e := Add(f, l.merge, d.mh);
    var block := Add(e, l.merge, d.mw);
    var b := Add(block, CHANNELS, d.c);
    var plane := Add(b, l.temporal, d.copy);
    var a := Add(plane, l.patch, d.py);
    Below(d.row, d.col, l.cols, l.rows);
    Below(f, d.mh, l.merge, l.rows * l.cols);
    Below(e, d.mw, l.merge, l.rows * l.cols * l.merge);
    Below(block, d.c, CHANNELS, l.rows * l.cols * l.merge * l.merge);
    Below(b, d.copy, l.temporal, l.rows * l.cols * l.merge * l.merge * CHANNELS);
    Below(plane, d.py, l.patch, l.rows * l.cols * l.merge * l.merge * CHANNELS * l.temporal);
    Below(a, d.px, l.patch, l.rows * l.cols * l.merge * l.merge * CHANNELS * l.temporal * l.patch);
  }

  /**
   Where the value at row `y` and column `x` of the image stands: the patches of a merged block are consecutive, and so
   are in a patch the channels, in a channel the copies, in a copy the rows, in a row the columns.
   */
  lemma LayoutFormula(l: Layout, d: Digits, patch: nat, k: nat, y: nat, x: nat)
    requires LayoutOk(l) && DigitsOk(l, d)
    requires y == (d.row * l.merge + d.mh) * l.patch + d.py && x == (d.col * l.merge + d.mw) * l.patch + d.px
    requires patch == ((d.row * l.cols + d.col) * l.merge + d.mh) * l.merge + d.mw
    requires k == (((patch * 3 + d.c) * l.temporal + d.copy) * l.patch + d.py) * l.patch + d.px
    ensures k < Total(l) && SourceAt(l, k) == Source(y, x, d.c, d.copy)
  {
    DigitsOfIndex(l, d);
    IndexIsBelow(l, d);
    IndexFormula(l, d, patch, k, y, x);
  }

  lemma IndexFormula(l: Layout, d: Digits, patch: nat, k: nat, y: nat, x: nat)
    requires y == (d.row * l.merge + d.mh) * l.patch + d.py && x == (d.col * l.merge + d.mw) * l.patch + d.px
    requires patch == ((d.row * l.cols + d.col) * l.merge + d.mh) * l.merge + d.mw
    requires k == (((patch * 3 + d.c) * l.temporal + d.copy) * l.patch + d.py) * l.patch + d.px
    ensures k == Index(l, d) && SourceOf(l, d) == Source(y, x, d.c, d.copy)
  {
  }

  /** And what stands there: the raw value at that row, column and channel, as it is stored for the channel. */
  lemma FilledFormula(l: Layout, img: Image, out: seq<real>, d: Digits, patch: nat, k: nat, y: nat, x: nat, raw: nat)
    requires LayoutOk(l) && DigitsOk(l, d) && Filled(l, img, out) && |out| == Total(l)
    requires y == (d.row * l.merge + d.mh) * l.patch + d.py && x == (d.col * l.merge + d.mw) * l.patch + d.px
    requires patch == ((d.row * l.cols + d.col) * l.merge + d.mh) * l.merge + d.mw
    requires k == (((patch * 3 + d.c) * l.temporal + d.copy) * l.patch + d.py) * l.patch + d.px
    requires raw == (y * Width(l) + x) * 3 + d.c
    ensures k < |out| && raw < |img.raw| && out[k] == img.value(img.raw[raw], d.c)
  {
    LayoutFormula(l, d, patch, k, y, x);
    assert EntryOk(l, img, out, k);
    hide DigitsAt, Total, SourceAt, Filled;
    assert raw == RawIndex(l, Source(y, x, d.c, d.copy));
  }

  // ----- the loops

  /** The resized image, and what is stored for a raw value of a channel. */
  datatype Image = Image(raw: seq<nat>, value: (nat, nat) -> real)

  predicate ImageOk(l: Layout, img: Image) {
    |img.raw| == Height(l) * Width(l) * CHANNELS
  }

  function RawIndex(l: Layout, s: Source): nat {
    Add(Add(s.y, Width(l), s.x), CHANNELS, s.c)
  }

  lemma RawIsInside(l: Layout, s: Source)
    requires SourceOk(l, s)
    ensures RawIndex(l, s) < Height(l) * Width(l) * CHANNELS
  {
    Below(s.y, s.x, Width(l), Height(l));
    Below(Add(s.y, Width(l), s.x), s.c, CHANNELS, Height(l) * Width(l));
  }

  /** Position `k` holds the stored value of its own source. */
  predicate EntryOk(l: Layout, img: Image, out: seq<real>, k: nat)
    requires LayoutOk(l) && l.cols > 0
  {
    var s := SourceAt(l, k);
    k < |out| && RawIndex(l, s) < |img.raw| && out[k] == img.value(img.raw[RawIndex(l, s)], s.c)
  }

  ghost predicate Filled(l: Layout, img: Image, out: seq<real>)
    requires LayoutOk(l) && l.cols > 0
  {
    forall k: nat :: k < |out| ==> EntryOk(l, img, out, k)
  }

  /** Positions where a plane, a block of planes, and a group of blocks start. */
  function PlaneStart(l: Layout, plane: nat): nat {
    Add(Add(plane, l.patch, 0), l.patch, 0)
  }

  function BlockStart(l: Layout, block: nat): nat {
    PlaneStart(l, Add(Add(block, CHANNELS, 0), l.temporal, 0))
  }

  function GroupStart(l: Layout, group: nat): nat {
    BlockStart(l, Add(Add(group, l.merge, 0), l.merge, 0))
  }

  lemma PushOne(l: Layout, img: Image, out: seq<real>, d: Digits)
    requires LayoutOk(l) && DigitsOk(l, d) && ImageOk(l, img) && Filled(l, img, out) && |out| == Index(l, d)
    ensures var s := SourceOf(l, d);
            && RawIndex(l, s) < |img.raw|
            && Filled(l, img, out + [img.value(img.raw[RawIndex(l, s)], s.c)])
  {
    var s := SourceOf(l, d);
    SourceIsInside(l, d);
    RawIsInside(l, s);
    DigitsOfIndex(l, d);
    var more := out + [img.value(img.raw[RawIndex(l, s)], s.c)];
    forall k: nat | k < |more|
      ensures EntryOk(l, img, more, k)
    {
      assert k < |out| ==> EntryOk(l, img, out, k);
    }
  }

  method PushPlane(l: Layout, img: Image, out: seq<real>, d: Digits) returns (more: seq<real>)
    requires LayoutOk(l) && DigitsOk(l, d) && ImageOk(l, img) && Filled(l, img, out)
    requires |out| == PlaneStart(l, Plane(l, d))
    ensures Filled(l, img, more) && |more| == PlaneStart(l, Plane(l, d) + 1)
  {
    hide Filled, DigitsAt;
    more := out;
    for py := 0 to l.patch
      invariant Filled(l, img, more) && |more| == Add(Add(Plane(l, d), l.patch, py), l.patch, 0)
    {
      for px := 0 to l.patch
        invariant Filled(l, img, more) && |more| == Add(Add(Plane(l, d), l.patch, py), l.patch, px)
      {
        var here := d.(py := py, px := px);
        PushOne(l, img, more, here);
        var y, x := Add(Add(d.row, l.merge, d.mh), l.patch, py), Add(Add(d.col, l.merge, d.mw), l.patch, px);
        more := more + [img.value(img.raw[Add(Add(y, Width(l), x), CHANNELS, d.c)], d.c)];
      }
      Carry(Add(Plane(l, d), l.patch, py), l.patch);
    }
    Carry(Plane(l, d), l.patch);
  }

  method PushBlock(l: Layout, img: Image, out: seq<real>, d: Digits) returns (more: seq<real>)
    requires LayoutOk(l) && DigitsOk(l, d) && ImageOk(l, img) && Filled(l, img, out)
    requires |out| == BlockStart(l, Block(l, d))
    ensures Filled(l, img, more) && |more| == BlockStart(l, Block(l, d) + 1)
  {
    hide Filled;
    more := out;
    for c := 0 to CHANNELS
      invariant Filled(l, img, more) && |more| == PlaneStart(l, Add(Add(Block(l, d), CHANNELS, c), l.temporal, 0))
    {
      for copy := 0 to l.temporal
        invariant Filled(l, img, more) && |more| == PlaneStart(l, Add(Add(Block(l, d), CHANNELS, c), l.temporal, copy))
      {
        more := PushPlane(l, img, more, d.(c := c, copy := copy));
      }
      Carry(Add(Block(l, d), CHANNELS, c), l.temporal);
    }
    Carry(Block(l, d), CHANNELS);
  }

  method PushGroup(l: Layout, img: Image, out: seq<real>, row: nat, col: nat) returns (more: seq<real>)
    requires LayoutOk(l) && row < l.rows && col < l.cols && ImageOk(l, img) && Filled(l, img, out)
    requires |out| == GroupStart(l, Add(row, l.cols, col))
    ensures Filled(l, img, more) && |more| == GroupStart(l, Add(row, l.cols, col) + 1)
  {
    hide Filled;
    var group := Add(row, l.cols, col);
    more := out;
    for mh := 0 to l.merge
      invariant Filled(l, img, more) && |more| == BlockStart(l, Add(Add(group, l.merge, mh), l.merge, 0))
    {
      for mw := 0 to l.merge
        invariant Filled(l, img, more) && |more| == BlockStart(l, Add(Add(group, l.merge, mh), l.merge, mw))
      {
        more := PushBlock(l, img, more, Digits(row, col, mh, mw, 0, 0, 0, 0));
      }
      Carry(Add(group, l.merge, mh), l.merge);
    }
    Carry(group, l.merge);
  }

  /** The eight nested loops: every position of the output holds the stored value of its own source. */
  method FillPatches(l: Layout, img: Image) returns (out: seq<real>)
    requires LayoutOk(l) && ImageOk(l, img)
    ensures |out| == Total(l)
    ensures l.cols > 0 ==> Filled(l, img, out)
  {
    out := [];
    for row := 0 to l.rows
      invariant |out| == GroupStart(l, Add(row, l.cols, 0))
      invariant l.cols > 0 ==> Filled(l, img, out)
    {
      for col := 0 to l.cols
        invariant |out| == GroupStart(l, Add(row, l.cols, col))
        invariant l.cols > 0 ==> Filled(l, img, out)
      {
        out := PushGroup(l, img, out, row, col);
      }
      Carry(row, l.cols);
    }
  }
}
