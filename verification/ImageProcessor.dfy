/** Preprocessing of one image (image_processor.rs, `preprocess_image_capped`): budget, resize, patch limit, layout. */
module ImageProcessor {
  import opened Arithmetic
  import S = SmartResize
  import P = PatchLayout

  /** A binary32 number of the configuration: finite, or an infinity or NaN. */
  datatype Float = Finite(value: real) | NotFinite

  /** Mean and deviation of one channel. */
  datatype Channel = Channel(mean: Float, deviation: Float)

  datatype Config = Config(patch: nat, temporal: nat, merge: nat, minPixels: nat, maxPixels: nat,
                           channels: seq<Channel>)

  predicate ChannelOk(x: Channel) {
    x.mean.Finite? && x.deviation.Finite? && x.deviation.value != 0.0
  }

  predicate ConfigOk(c: Config) {
    && 0 < c.patch <= 256 && 0 < c.merge <= 256 && 0 < c.temporal <= 16
    && 0 < c.minPixels <= c.maxPixels
    && |c.channels| == P.CHANNELS && forall i :: 0 <= i < P.CHANNELS ==> ChannelOk(c.channels[i])
  }

  /** Rejects configurations that would make the layout or the values ill-defined. */
  method Validate(c: Config) returns (ok: bool)
    requires |c.channels| == P.CHANNELS
    ensures ok <==> ConfigOk(c)
  {
    if c.patch == 0 || c.temporal == 0 || c.merge == 0 || c.patch > 256 || c.merge > 256 || c.temporal > 16
       || c.minPixels == 0 || c.maxPixels < c.minPixels
    {
      return false;
    }
    for i := 0 to P.CHANNELS
      invariant forall k :: 0 <= k < i ==> ChannelOk(c.channels[k])
    {
      var Channel(mean, deviation) := c.channels[i];
      if mean.NotFinite? || deviation.NotFinite? || deviation.value == 0.0 {
        return false;
      }
    }
    ok := true;
  }

  /** What is stored for a raw value of a channel. */
  function Normalized(c: Config, raw: nat, channel: nat): real
    requires ConfigOk(c)
  {
    if channel < P.CHANNELS then
      var x := c.channels[channel];
      assert ChannelOk(x);
      (raw as real / 255.0 - x.mean.value) / x.deviation.value
    else 0.0
  }

  /** The stored value is the raw one, from 0 to 1, in deviations from the mean of its channel. */
  lemma NormalizedIs(c: Config, raw: nat, channel: nat)
    requires ConfigOk(c) && channel < 3
    ensures c.channels[channel].mean.Finite? && c.channels[channel].deviation.Finite?
    ensures Normalized(c, raw, channel) * c.channels[channel].deviation.value + c.channels[channel].mean.value ==
            raw as real / 255.0
  {
    assert ChannelOk(c.channels[channel]);
  }

  /** The resized image with the values that are stored for it. */
  function ImageOf(c: Config, raw: seq<nat>): P.Image
    requires ConfigOk(c)
  {
    P.Image(raw, (x: nat, channel: nat) => Normalized(c, x, channel))
  }

  datatype Processed = Processed(values: seq<real>, gridH: nat, gridW: nat)

  datatype Result = Ok(image: Processed, size: S.Size) | Err

  /** The grid in merged units. */
  function LayoutOf(c: Config, size: S.Size): P.Layout
    requires c.patch > 0 && c.merge > 0
  {
    P.Layout(c.patch, c.merge, c.temporal, Quotient(Quotient(size.h, c.patch), c.merge),
             Quotient(Quotient(size.w, c.patch), c.merge))
  }

  lemma AlignedLayout(c: Config, size: S.Size, a: nat, b: nat)
    requires ConfigOk(c) && size == S.Size(a * (c.patch * c.merge), b * (c.patch * c.merge))
    ensures size.h / c.patch == a * c.merge && size.w / c.patch == b * c.merge
    ensures LayoutOf(c, size).rows == a && LayoutOf(c, size).cols == b
    ensures P.Height(LayoutOf(c, size)) == size.h && P.Width(LayoutOf(c, size)) == size.w
  {
    S.MultipleOf(a, c.patch, c.merge);
    S.MultipleOf(b, c.patch, c.merge);
    FieldsUnique(c.merge, a * c.merge, a, 0);
    FieldsUnique(c.merge, b * c.merge, b, 0);
  }

  // ----- when an image is accepted

  function MaxOf(c: Config, maxPatches: nat, downscale: bool): nat {
    S.Budget(c.maxPixels, c.patch, maxPatches, downscale)
  }

  function MinOf(c: Config, maxPatches: nat, downscale: bool): nat {
    Min(c.minPixels, MaxOf(c, maxPatches, downscale))
  }

  /** The checks before the image is resized: configuration, buffer length, sizes and aspect ratio. */
  predicate InputOk(c: Config, bytes: nat, h: nat, w: nat, maxPatches: nat, downscale: bool) {
    && ConfigOk(c) && bytes == h * w * P.CHANNELS <= S.USIZE_MAX
    && S.Accepts(h, w, c.patch * c.merge, MinOf(c, maxPatches, downscale), MaxOf(c, maxPatches, downscale))
  }

  function Patches(c: Config, size: S.Size): nat
    requires c.patch > 0
  {
    (size.h / c.patch) * (size.w / c.patch)
  }

  function PatchSize(c: Config): nat {
    P.CHANNELS * c.temporal * (c.patch * c.patch)
  }

  /** The buffers of a resized image are machine sizes, and its grid is within the limit. */
  predicate SizeOk(c: Config, h: nat, maxPatches: nat, size: S.Size)
    requires c.patch > 0
  {
    && S.SizeFits(size) && h * size.w * P.CHANNELS <= S.USIZE_MAX && size.h * size.w * P.CHANNELS <= S.USIZE_MAX
    && Patches(c, size) <= maxPatches && Patches(c, size) * PatchSize(c) <= S.USIZE_MAX
  }

  /**
   Conditions on the input alone under which downscaling makes the image fit: the limit is far from overflow, and
   neither clamping nor enlarging takes the image over the budget.
   */
  predicate Fits(c: Config, bytes: nat, h: nat, w: nat, maxPatches: nat, downscale: bool) {
    && downscale && InputOk(c, bytes, h, w, maxPatches, downscale)
    && h * (maxPatches * c.patch * c.patch) * P.CHANNELS <= S.USIZE_MAX
    && maxPatches * PatchSize(c) <= S.USIZE_MAX
    && S.KeepsBudget(h, w, c.patch * c.merge, MinOf(c, maxPatches, downscale), MaxOf(c, maxPatches, downscale))
  }

  /** An image that fits is within the limits whatever its resized size. */
  lemma FittingIsOk(c: Config, bytes: nat, h: nat, w: nat, maxPatches: nat, downscale: bool, size: S.Size, a: nat,
                    b: nat)
    requires Fits(c, bytes, h, w, maxPatches, downscale) && a > 0 && b > 0
    requires S.Resized(h, w, c.patch * c.merge, MinOf(c, maxPatches, downscale), MaxOf(c, maxPatches, downscale), size)
    requires size == S.Size(a * (c.patch * c.merge), b * (c.patch * c.merge))
    ensures SizeOk(c, h, maxPatches, size)
  {
    var cap, area := maxPatches * c.patch * c.patch, size.h * size.w;
    hide S.Resized, S.KeepsBudget, S.SnapUnits;
    S.ResizedFitsIff(h, w, c.patch * c.merge, MinOf(c, maxPatches, downscale), MaxOf(c, maxPatches, downscale), size);
    MulMono(1, h, cap);
    S.PositiveProduct(a, c.patch * c.merge);
    S.PositiveProduct(b, c.patch * c.merge);
    MulMono(1, size.h, size.w);
    MulMono(1, size.w, size.h);
    MulMono(size.w, cap, h);
    MulAssoc(maxPatches, c.patch, c.patch);
    S.PatchesIff(a, b, c.patch, c.merge, maxPatches, size.h, size.w);
    MulMono(Patches(c, size), maxPatches, PatchSize(c));
  }

  /**
   The image as patches, from a buffer of `bytes` bytes. It fails exactly if a check on the input fails or the resized
   size exceeds a limit; with downscaling an image that fits never does.
   */
  method Preprocess(c: Config, bytes: nat, h: nat, w: nat, maxPatches: nat, downscale: bool, sqrt: real -> real,
                    resample: S.Size -> seq<nat>)
    returns (r: Result)
    requires |c.channels| == P.CHANNELS && S.IsSqrt(sqrt)
    requires forall size :: |resample(size)| == size.h * size.w * P.CHANNELS
    ensures r.Ok? ==>
              && InputOk(c, bytes, h, w, maxPatches, downscale) && SizeOk(c, h, maxPatches, r.size)
              && S.Resized(h, w, c.patch * c.merge, MinOf(c, maxPatches, downscale), MaxOf(c, maxPatches, downscale),
                           r.size)
              && r.image.gridH * r.image.gridW <= maxPatches
              && var l := LayoutOf(c, r.size);
                 && P.Height(l) == r.size.h && P.Width(l) == r.size.w
                 && r.image.gridH == l.rows * c.merge && r.image.gridW == l.cols * c.merge && l.cols > 0
                 && |r.image.values| == P.Total(l)
                 && P.Filled(l, ImageOf(c, resample(r.size)), r.image.values)
    ensures r.Err? && InputOk(c, bytes, h, w, maxPatches, downscale) ==>
              exists size :: && S.Resized(h, w, c.patch * c.merge, MinOf(c, maxPatches, downscale),
                                          MaxOf(c, maxPatches, downscale), size)
                             && !SizeOk(c, h, maxPatches, size)
    ensures r.Err? ==> !Fits(c, bytes, h, w, maxPatches, downscale)
  {
    hide P.Filled, P.Total, S.Resized, S.SnapUnits, S.KeepsBudget, S.Budget;
    var valid := Validate(c);
    if !valid || h == 0 || w == 0 || h * w * P.CHANNELS > S.USIZE_MAX || bytes != h * w * P.CHANNELS {
      return Err;
    }
    var factor := c.patch * c.merge;
    S.PositiveProduct(c.patch, c.merge);
    var min, max := S.CappedBudget(c.minPixels, c.maxPixels, c.patch, maxPatches, downscale);
    var resized := S.SmartResize(h, w, factor, min, max, sqrt);
    ghost var size': S.Size;
    if InputOk(c, bytes, h, w, maxPatches, downscale) {
      size' :| S.Resized(h, w, factor, min, max, size') && (resized.Ok? <==> S.SizeFits(size'));
      ghost var i, j := S.ResizedIsAligned(h, w, factor, min, max, size');
      if Fits(c, bytes, h, w, maxPatches, downscale) {
        FittingIsOk(c, bytes, h, w, maxPatches, downscale, size', i, j);
      }
    }
    if resized.Err? {
      return Err;
    }
    var size := resized.size;
    S.ResizedIsUnique(h, w, factor, min, max, size, size');
    ghost var a, b := S.ResizedIsAligned(h, w, factor, min, max, size);
    AlignedLayout(c, size, a, b);
    var gridH, gridW := size.h / c.patch, size.w / c.patch;
    if h * size.w * P.CHANNELS > S.USIZE_MAX || size.h * size.w * P.CHANNELS > S.USIZE_MAX
       || gridH * gridW > maxPatches || gridH * gridW * PatchSize(c) > S.USIZE_MAX
    {
      return Err;
    }
    var l := LayoutOf(c, size);
    var values := P.FillPatches(l, ImageOf(c, resample(size)));
    r := Ok(Processed(values, gridH, gridW), size);
  }
}
