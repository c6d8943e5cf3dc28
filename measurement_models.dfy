/**
 * The forward measurement operators of measurement_models/measurement_models.py:
 * noise-model validation, the pure operators (identity, magnitude, grayscale)
 * and the operators that keep state between calls (the random-inpainting mask,
 * the once-placed inpainting box and the memoised blur kernels).
 *
 * Tensors are values of `Tensors.Tensor`, except for box inpainting, which
 * multiplies a slice of its argument in place and so works on the argument's
 * storage, an `array<real>`.  Random draws are nondeterministic choices within
 * the range the draw promises; convolutions, the kernel-encoding network and
 * the motion-blur kernel generator are collaborators.
 */
module MeasurementModels {
  import opened Wrappers
  import opened Tensors
  import Timesteps
  import PosteriorGuidance

  datatype OperatorError =
    | UnknownNoiseModel(name: string)           // "Noise model ... not implemented!"
    | MissingDimension(shape: seq<nat>)         // `tensor.shape[1]` / `tensor.size(1)` of a tensor of rank < 2
    | NotFourDimensional(shape: seq<nat>)       // `b, c, h, w = tensor.shape` and the other rank-4-only steps
    | UnsupportedBroadcast(shape: seq<nat>)     // three-channel grayscale of a tensor that is not rank 4
    | BoxSizeMismatch(height: int, width: int)  // the box slice is not 128x128, so the 128x128 mask does not fit it
    | MaskShapeMismatch(mask: seq<nat>, input: seq<nat>)
    | KernelChannelMismatch(kernelChannels: nat, channels: nat)
    | BatchSizeNotOne(shape: seq<nat>)          // "Batch size must be 1"
    | EmptyTensor                               // `tensor.min()` of a tensor without elements

  // ---------------------------------------------------------------------------
  // Noise models
  // ---------------------------------------------------------------------------

  datatype NoiseModel = Gaussian | Poisson

  function NoiseModelName(m: NoiseModel): string {
    match m
    case Gaussian => "gaussian"
    case Poisson => "poisson"
  }

  /** The noise settings every measurement operator inherits. */
  datatype NoiseProcess = NoiseProcess(noiseModel: NoiseModel, sigma: real)

  /** `NoiseProcess.__init__`: only "gaussian" and "poisson" are accepted. */
  function NewNoiseProcess(name: string, sigma: real): (r: Result<NoiseProcess, OperatorError>)
    ensures r.Success? <==> name == "gaussian" || name == "poisson"
    ensures r.Success? ==> NoiseModelName(r.value.noiseModel) == name && r.value.sigma == sigma
    ensures r.Failure? ==> r.error == UnknownNoiseModel(name)
  {
    if name == "gaussian" then Success(NoiseProcess(Gaussian, sigma))
    else if name == "poisson" then Success(NoiseProcess(Poisson, sigma))
    else Failure(UnknownNoiseModel(name))
  }

  /** Every noise model is accepted under its own name. */
  lemma NoiseModelRoundTrip(m: NoiseModel, sigma: real)
    ensures NewNoiseProcess(NoiseModelName(m), sigma) == Success(NoiseProcess(m, sigma))
  {
  }

  // ---------------------------------------------------------------------------
  // Row-major geometry: element `q` of plane `m`, with planes of `size` elements
  // ---------------------------------------------------------------------------

  lemma PlaneIndexBound(m: nat, q: nat, planes: nat, size: nat)
    requires m < planes && q < size
    ensures m * size + q < planes * size
  {
    Timesteps.MulMono(m + 1, planes, size);
  }

  lemma PlaneDecompose(p: nat, size: nat, planes: nat)
    requires p < planes * size
    ensures size > 0 && p / size < planes && p % size < size
    ensures p == (p / size) * size + p % size
  {
    if size > 0 && p / size >= planes {
      Timesteps.MulMono(planes, p / size, size);
    }
  }

  lemma PlanePosition(m: nat, q: nat, size: nat)
    requires q < size
    ensures (m * size + q) / size == m && (m * size + q) % size == q
  {
    var p := m * size + q;
    var d := p / size;
    assert p == d * size + p % size;
    if d > m {
      Timesteps.MulMono(m + 1, d, size);
    } else if d < m {
      Timesteps.MulMono(d + 1, m, size);
    }
  }

  lemma Product4(shape: seq<nat>)
    requires |shape| == 4
    ensures Product(shape) == (shape[0] * shape[1]) * (shape[2] * shape[3])
  {
    assert Product(shape[3..]) == shape[3] by {
      assert shape[3..][1..] == [];
    }
    assert Product(shape[2..]) == shape[2] * shape[3] by {
      assert shape[2..][1..] == shape[3..];
    }
    assert Product(shape[1..]) == shape[1] * (shape[2] * shape[3]) by {
      assert shape[1..][1..] == shape[2..];
    }
  }

  // ---------------------------------------------------------------------------
  // Identity and Magnitude
  // ---------------------------------------------------------------------------

  /** `Identity.__call__` returns its argument. */
  function Identity(t: Tensor): (r: Tensor)
    ensures r == t
  {
    t
  }

  /** `Magnitude.__call__`: the elementwise absolute value. */
  function Magnitude(t: Tensor): (r: Tensor)
    ensures r.shape == t.shape && |r.data| == |t.data|
    ensures forall i :: 0 <= i < |r.data| ==> r.data[i] >= 0.0
    ensures forall i :: 0 <= i < |r.data| ==> r.data[i] == t.data[i] || r.data[i] == -t.data[i]
  {
    Tensor(t.shape, seq(|t.data|, i requires 0 <= i < |t.data| => PosteriorGuidance.Abs(t.data[i])))
  }

  /** A tensor without negative elements is its own magnitude; in particular taking
      the magnitude twice is taking it once. */
  lemma MagnitudeFixesNonnegative(t: Tensor)
    requires forall i :: 0 <= i < |t.data| ==> t.data[i] >= 0.0
    ensures Magnitude(t) == t
  {
    assert Magnitude(t).data == t.data;
  }

  lemma MagnitudeIdempotent(t: Tensor)
    ensures Magnitude(Magnitude(t)) == Magnitude(t)
  {
    MagnitudeFixesNonnegative(Magnitude(t));
  }

  // ---------------------------------------------------------------------------
  // Grayscale
  // ---------------------------------------------------------------------------

  /** `(tensor * weights).sum(dim=1)` for one pixel, with the weights 0.2989, 0.5870, 0.1140. */
  function Luma(red: real, green: real, blue: real): real {
    0.2989 * red + 0.5870 * green + 0.1140 * blue
  }

  /** The gray value of pixel `q` of image `n` in a batch of three-channel images. */
  function GrayAt(x: seq<real>, batch: nat, size: nat, n: nat, q: nat): (g: real)
    requires |x| == (batch * 3) * size && n < batch && q < size
  {
    PlaneIndexBound(3 * n, q, batch * 3, size);
    PlaneIndexBound(3 * n + 1, q, batch * 3, size);
    PlaneIndexBound(3 * n + 2, q, batch * 3, size);
    Luma(x[(3 * n) * size + q], x[(3 * n + 1) * size + q], x[(3 * n + 2) * size + q])
  }

  /** The weighted channel sum, repeated on all three channels (`.repeat(1, 3, 1, 1)`). */
  function GrayscaleData(x: seq<real>, batch: nat, size: nat): (r: seq<real>)
    requires |x| == (batch * 3) * size
    ensures |r| == |x|
  {
    seq(|x|, p requires 0 <= p < |x| =>
      PlaneDecompose(p, size, batch * 3);
      GrayAt(x, batch, size, (p / size) / 3, p % size))
  }

  /** Every channel of pixel `q` of image `n` holds that pixel's gray value. */
  lemma {:induction false} GrayscaleDataAt(x: seq<real>, batch: nat, size: nat, n: nat, c: nat, q: nat)
    requires |x| == (batch * 3) * size && n < batch && c < 3 && q < size
    ensures (3 * n + c) * size + q < |x|
    ensures GrayscaleData(x, batch, size)[(3 * n + c) * size + q] == GrayAt(x, batch, size, n, q)
  {
    PlaneIndexBound(3 * n + c, q, batch * 3, size);
    PlanePosition(3 * n + c, q, size);
    assert (3 * n + c) / 3 == n;
  }

  /** `Grayscale.__call__`: a rank-3 image is promoted first; a tensor whose second
      dimension is not 3 is returned as promoted; a three-channel batch becomes the
      weighted channel sum repeated on all channels, squeezed back for a batch of one. */
  function Grayscale(t: Tensor): (r: Result<Tensor, OperatorError>)
    requires t.Valid()
    ensures r.Success? <==>
      Promote(t).Rank() >= 2 && (Promote(t).shape[1] != 3 || Promote(t).Rank() == 4)
    ensures Promote(t).Rank() < 2 ==> r == Failure(MissingDimension(Promote(t).shape))
    ensures Promote(t).Rank() >= 2 && Promote(t).shape[1] != 3 ==> r == Success(Promote(t))
    ensures r.Success? ==> r.value.Valid() && Promote(r.value).shape == Promote(t).shape
  {
    var x := Promote(t);
    if x.Rank() < 2 then Failure(MissingDimension(x.shape))
    else if x.shape[1] != 3 then Success(x)
    else if x.Rank() != 4 then Failure(UnsupportedBroadcast(x.shape))
    else
      Product4(x.shape);
      var gray := Tensor(x.shape, GrayscaleData(x.data, x.shape[0], x.shape[2] * x.shape[3]));
      PromoteDemoteRoundTrip(gray);
      Success(Demote(gray))
  }

  /** The element at image `n`, channel `c`, pixel `q` of the (re-promoted) grayscale
      output is the weighted sum of that pixel's three input channels. */
  lemma GrayscaleAt(t: Tensor, n: nat, c: nat, q: nat)
    requires t.Valid()
    requires Promote(t).Rank() == 4 && Promote(t).shape[1] == 3
    requires n < Promote(t).shape[0] && c < 3 && q < Promote(t).shape[2] * Promote(t).shape[3]
    ensures var x := Promote(t); var size := x.shape[2] * x.shape[3];
      var out := Promote(Grayscale(t).value).data;
      && (3 * n + c) * size + q < |out|
      && (3 * n + 2) * size + q < |x.data|
      && out[(3 * n + c) * size + q] ==
         Luma(x.data[(3 * n) * size + q], x.data[(3 * n + 1) * size + q], x.data[(3 * n + 2) * size + q])
  {
    var x := Promote(t);
    var size := x.shape[2] * x.shape[3];
    Product4(x.shape);
    GrayscaleDataAt(x.data, x.shape[0], size, n, c, q);
    PlaneIndexBound(3 * n + 2, q, x.shape[0] * 3, size);
    var gray := Tensor(x.shape, GrayscaleData(x.data, x.shape[0], size));
    PromoteDemoteRoundTrip(gray);
    assert Promote(Grayscale(t).value) == gray;
  }

  /** The three output channels of every pixel agree. */
  lemma GrayscaleChannelsAgree(t: Tensor, n: nat, c: nat, q: nat)
    requires t.Valid()
    requires Promote(t).Rank() == 4 && Promote(t).shape[1] == 3
    requires n < Promote(t).shape[0] && c < 3 && q < Promote(t).shape[2] * Promote(t).shape[3]
    ensures var size := Promote(t).shape[2] * Promote(t).shape[3];
      var out := Promote(Grayscale(t).value).data;
      (3 * n + c) * size + q < |out| && out[(3 * n + c) * size + q] == out[(3 * n) * size + q]
  {
    GrayscaleAt(t, n, c, q);
    GrayscaleAt(t, n, 0, q);
  }

  /** A pixel that is already gray (equal channels `v`) comes out as `0.9999 * v`:
      the weights sum to 0.9999, not 1. */
  lemma GrayscaleOfGrayPixel(t: Tensor, n: nat, c: nat, q: nat, v: real)
    requires t.Valid()
    requires Promote(t).Rank() == 4 && Promote(t).shape[1] == 3
    requires n < Promote(t).shape[0] && c < 3 && q < Promote(t).shape[2] * Promote(t).shape[3]
    requires var x := Promote(t); var size := x.shape[2] * x.shape[3];
      (3 * n + 2) * size + q < |x.data|
      && x.data[(3 * n) * size + q] == v
      && x.data[(3 * n + 1) * size + q] == v
      && x.data[(3 * n + 2) * size + q] == v
    ensures var size := Promote(t).shape[2] * Promote(t).shape[3];
      var out := Promote(Grayscale(t).value).data;
      (3 * n + c) * size + q < |out| && out[(3 * n + c) * size + q] == 0.9999 * v
  {
    GrayscaleAt(t, n, c, q);
  }

  // ---------------------------------------------------------------------------
  // Random inpainting
  // ---------------------------------------------------------------------------

  /** `mask.expand(-1, c, -1, -1)`: the `(b, 1, h, w)` mask seen as `(b, c, h, w)`. */
  function ExpandOverChannels(pixels: seq<bool>, batch: nat, channels: nat, size: nat): (keep: seq<bool>)
    requires |pixels| == batch * size
    ensures |keep| == (batch * channels) * size
  {
    seq((batch * channels) * size, p requires 0 <= p < (batch * channels) * size =>
      PlaneDecompose(p, size, batch * channels);
      PlaneDecompose(p / size, channels, batch);
      PlaneIndexBound((p / size) / channels, p % size, batch, size);
      pixels[((p / size) / channels) * size + p % size])
  }

  /** Every channel of a pixel is kept or dropped together. */
  lemma {:induction false} ExpandOverChannelsAt(pixels: seq<bool>, batch: nat, channels: nat, size: nat, n: nat, c: nat, q: nat)
    requires |pixels| == batch * size && n < batch && c < channels && q < size
    ensures n * size + q < |pixels|
    ensures (n * channels + c) * size + q < (batch * channels) * size
    ensures ExpandOverChannels(pixels, batch, channels, size)[(n * channels + c) * size + q] == pixels[n * size + q]
  {
    PlaneIndexBound(n, q, batch, size);
    PlaneIndexBound(n, c, batch, channels);
    PlaneIndexBound(n * channels + c, q, batch * channels, size);
    PlanePosition(n * channels + c, q, size);
    PlanePosition(n, c, channels);
  }

  /** `tensor * mask` with a boolean mask: kept elements stay, the others become zero. */
  function Masked(x: Tensor, keep: seq<bool>): (r: Tensor)
    requires |keep| == |x.data|
    ensures r.shape == x.shape && |r.data| == |x.data|
    ensures forall i :: 0 <= i < |r.data| ==> r.data[i] == if keep[i] then x.data[i] else 0.0
  {
    Tensor(x.shape, seq(|x.data|, i requires 0 <= i < |x.data| => if keep[i] then x.data[i] else 0.0))
  }

  /** Masking again with the same mask changes nothing, which is why reusing the
      mask gives a consistent operator. */
  lemma MaskedIdempotent(x: Tensor, keep: seq<bool>)
    requires |keep| == |x.data|
    ensures Masked(Masked(x, keep), keep) == Masked(x, keep)
  {
    assert Masked(Masked(x, keep), keep).data == Masked(x, keep).data;
  }

  /** The stored mask: the drawn `(b, 1, h, w)` pixels and the `(b, c, h, w)` shape it is expanded to. */
  datatype Mask = Mask(shape: seq<nat>, pixels: seq<bool>) {
    predicate Valid() {
      |shape| == 4 && |pixels| == shape[0] * (shape[2] * shape[3])
    }

    function Keep(): (keep: seq<bool>)
      requires Valid()
      ensures |keep| == Product(shape)
    {
      Product4(shape);
      ExpandOverChannels(pixels, shape[0], shape[1], shape[2] * shape[3])
    }
  }

  /** `RandomInpainting`: the mask is drawn on the first call and reused on every later call. */
  class RandomInpainting {
    const noise: NoiseProcess
    const noiseLevel: real
    var mask: Option<Mask>

    ghost predicate Valid()
      reads this
    {
      mask.Some? ==> mask.value.Valid()
    }

    constructor (noise: NoiseProcess, noiseLevel: real)
      ensures Valid()
      ensures this.noise == noise && this.noiseLevel == noiseLevel && mask == None
    {
      this.noise := noise;
      this.noiseLevel := noiseLevel;
      mask := None;
    }

    /** `RandomInpainting.__call__`. */
    method Call(t: Tensor) returns (r: Result<Tensor, OperatorError>)
      requires Valid() && t.Valid()
      modifies this
      ensures Valid()
      ensures Promote(t).Rank() != 4 ==> r == Failure(NotFourDimensional(Promote(t).shape)) && mask == old(mask)
      ensures Promote(t).Rank() == 4 && old(mask).Some? ==> mask == old(mask)
      ensures Promote(t).Rank() == 4 && old(mask).None? ==> mask.Some? && mask.value.shape == Promote(t).shape
      ensures r.Success? <==> Promote(t).Rank() == 4 && mask.Some? && mask.value.shape == Promote(t).shape
      ensures Promote(t).Rank() == 4 && r.Failure? ==>
        mask.Some? && r.error == MaskShapeMismatch(mask.value.shape, Promote(t).shape)
      ensures r.Success? ==> r.value == Demote(Masked(Promote(t), mask.value.Keep()))
    {
      var x := Promote(t);
      if x.Rank() != 4 {
        return Failure(NotFourDimensional(x.shape));
      }
      if mask.None? {
        var pixelCount := x.shape[0] * (x.shape[2] * x.shape[3]);
        var zeros := seq(pixelCount, _ => 0.0);
        assert forall i :: 0 <= i < pixelCount ==> 0.0 <= zeros[i] < 1.0;
        var draws: seq<real> :| |draws| == pixelCount && forall i :: 0 <= i < pixelCount ==> 0.0 <= draws[i] < 1.0;
        mask := Some(Mask(x.shape, seq(pixelCount, i requires 0 <= i < pixelCount => draws[i] > noiseLevel)));
      }
      if mask.value.shape != x.shape {
        return Failure(MaskShapeMismatch(mask.value.shape, x.shape));
      }
      r := Success(Demote(Masked(x, mask.value.Keep())));
    }
  }

  // ---------------------------------------------------------------------------
  // Box inpainting
  // ---------------------------------------------------------------------------

  /** The largest offset `max_x` for an image extent: `extent - 128`, or 0 when it is smaller than the box. */
  function MaxOffset(extent: nat): (r: nat)
    ensures r + Timesteps.Min(128, extent) <= extent
    ensures extent >= 128 ==> r + 128 == extent
  {
    if extent >= 128 then extent - 128 else 0
  }

  /** An offset drawn from `[0, max(1, max_x))` keeps a box of `min(128, extent)` inside the image. */
  lemma BoxFits(extent: nat, offset: nat)
    requires offset < Timesteps.Max(1, MaxOffset(extent))
    ensures offset + Timesteps.Min(128, extent) <= extent
  {
  }

  /** The number of indices Python's slice `start:start + length` takes from a dimension of `extent`. */
  function SliceLength(start: nat, length: nat, extent: nat): (n: nat)
    ensures n <= length && (n > 0 ==> start + n <= extent)
    ensures n == length || start + n >= extent
  {
    if start >= extent then 0 else Timesteps.Min(start + length, extent) - start
  }

  /** Rows `top .. top + height` and columns `left .. left + width` of every plane. */
  datatype Region = Region(top: nat, left: nat, height: nat, width: nat)

  /** Whether flat position `p` of a tensor with `h x w` planes lies in the region. */
  predicate Covered(region: Region, h: nat, w: nat, p: nat) {
    && h > 0 && w > 0
    && region.top <= (p / w) % h < region.top + region.height
    && region.left <= p % w < region.left + region.width
  }

  /** The region's elements set to zero, every other element as it was. */
  function Inpainted(data: seq<real>, h: nat, w: nat, region: Region): (r: seq<real>)
    ensures |r| == |data|
    ensures forall p :: 0 <= p < |r| ==> r[p] == 0.0 || r[p] == data[p]
  {
    seq(|data|, p requires 0 <= p < |data| => if Covered(region, h, w, p) then 0.0 else data[p])
  }

  /** Inpainting zeroes exactly the covered elements: an element is unchanged or zero,
      and it is zero whenever it is covered. */
  lemma InpaintedAt(data: seq<real>, h: nat, w: nat, region: Region, p: nat)
    requires p < |data|
    ensures Covered(region, h, w, p) ==> Inpainted(data, h, w, region)[p] == 0.0
    ensures !Covered(region, h, w, p) ==> Inpainted(data, h, w, region)[p] == data[p]
  {
  }

  /** Inpainting the same region twice is inpainting it once. */
  lemma InpaintedIdempotent(data: seq<real>, h: nat, w: nat, region: Region)
    ensures Inpainted(Inpainted(data, h, w, region), h, w, region) == Inpainted(data, h, w, region)
  {
    assert Inpainted(Inpainted(data, h, w, region), h, w, region) == Inpainted(data, h, w, region);
  }

  /** `BoxInpainting`: a 128x128 box placed on the first call and kept for all later calls. */
  class BoxInpainting {
    const noise: NoiseProcess
    var x1: nat
    var x2: nat
    var boxH: nat
    var boxW: nat
    var boxValues: bool

    constructor (noise: NoiseProcess)
      ensures this.noise == noise && !boxValues
    {
      this.noise := noise;
      x1, x2, boxH, boxW := 0, 0, 0, 0;
      boxValues := false;
    }

    function Placement(): Region
      reads this
    {
      Region(x1, x2, boxH, boxW)
    }

    /** `BoxInpainting.box`: draws the box the first time and does nothing afterwards. */
    method Box(shape: seq<nat>) returns (r: Result<(), OperatorError>)
      modifies this
      ensures old(boxValues) ==> r.Success? && unchanged(this)
      ensures !old(boxValues) && |shape| != 4 ==> r == Failure(NotFourDimensional(shape)) && unchanged(this)
      ensures !old(boxValues) && |shape| == 4 ==>
        && r.Success? && boxValues
        && boxH == Timesteps.Min(128, shape[2]) && boxW == Timesteps.Min(128, shape[3])
        && x1 < Timesteps.Max(1, MaxOffset(shape[2])) && x2 < Timesteps.Max(1, MaxOffset(shape[3]))
        && x1 + boxH <= shape[2] && x2 + boxW <= shape[3]
    {
      if boxValues {
        return Success(());
      }
      if |shape| != 4 {
        return Failure(NotFourDimensional(shape));
      }
      var h, w := shape[2], shape[3];
      var top: nat :| top < Timesteps.Max(1, MaxOffset(h));
      var left: nat :| left < Timesteps.Max(1, MaxOffset(w));
      x1, x2 := top, left;
      boxH, boxW := Timesteps.Min(128, h), Timesteps.Min(128, w);
      BoxFits(h, x1);
      BoxFits(w, x2);
      boxValues := true;
      r := Success(());
    }

    /** `BoxInpainting.__call__` on a tensor stored in `a`: the box region of every
        plane is multiplied in place by the all-false 128x128 mask. */
    method Call(shape: seq<nat>, a: array<real>) returns (r: Result<Tensor, OperatorError>)
      requires a.Length == Product(shape)
      modifies this, a
      ensures var s := Promote(Tensor(shape, [])).shape;
        |s| != 4 ==> r == Failure(NotFourDimensional(s)) && unchanged(this) && a[..] == old(a[..])
      ensures var s := Promote(Tensor(shape, [])).shape;
        |s| == 4 && old(boxValues) ==> unchanged(this)
      ensures var s := Promote(Tensor(shape, [])).shape;
        |s| == 4 && !old(boxValues) ==>
          && boxValues
          && boxH == Timesteps.Min(128, s[2]) && boxW == Timesteps.Min(128, s[3])
          && x1 + boxH <= s[2] && x2 + boxW <= s[3]
      ensures var s := Promote(Tensor(shape, [])).shape;
        |s| == 4 ==>
          (r.Success? <==> SliceLength(x1, boxH, s[2]) == 128 && SliceLength(x2, boxW, s[3]) == 128)
      ensures var s := Promote(Tensor(shape, [])).shape;
        |s| == 4 && r.Failure? ==>
          r.error == BoxSizeMismatch(SliceLength(x1, boxH, s[2]), SliceLength(x2, boxW, s[3])) && a[..] == old(a[..])
      ensures var s := Promote(Tensor(shape, [])).shape;
        r.Success? ==>
          && a[..] == Inpainted(old(a[..]), s[2], s[3], Placement())
          && r.value == Demote(Tensor(s, a[..]))
      ensures var s := Promote(Tensor(shape, [])).shape;
        |s| == 4 && !old(boxValues) ==> (r.Success? <==> s[2] >= 128 && s[3] >= 128)
    {
      var s := Promote(Tensor(shape, [])).shape;
      var placed := Box(s);
      if placed.Failure? {
        return Failure(placed.error);
      }
      if |s| != 4 {
        return Failure(NotFourDimensional(s));
      }
      var sliceH, sliceW := SliceLength(x1, boxH, s[2]), SliceLength(x2, boxW, s[3]);
      if sliceH != 128 || sliceW != 128 {
        return Failure(BoxSizeMismatch(sliceH, sliceW));
      }
      ghost var before := a[..];
      var region := Placement();
      forall p | 0 <= p < a.Length && Covered(region, s[2], s[3], p) {
        a[p] := 0.0;
      }
      assert a[..] == Inpainted(before, s[2], s[3], region);
      r := Success(Demote(Tensor(s, a[..])));
    }
  }

  // ---------------------------------------------------------------------------
  // Non-linear blur
  // ---------------------------------------------------------------------------

  function SeqMin(s: seq<real>): (m: real)
    requires |s| > 0
    ensures forall i :: 0 <= i < |s| ==> m <= s[i]
    ensures exists i :: 0 <= i < |s| && s[i] == m
  {
    if |s| == 1 then s[0]
    else
      var rest := SeqMin(s[1..]);
      assert forall i :: 1 <= i < |s| ==> s[i] == s[1..][i - 1];
      if s[0] <= rest then s[0] else rest
  }

  function SeqMax(s: seq<real>): (m: real)
    requires |s| > 0
    ensures forall i :: 0 <= i < |s| ==> s[i] <= m
    ensures exists i :: 0 <= i < |s| && s[i] == m
  {
    if |s| == 1 then s[0]
    else
      var rest := SeqMax(s[1..]);
      assert forall i :: 1 <= i < |s| ==> s[i] == s[1..][i - 1];
      if s[0] >= rest then s[0] else rest
  }

  /** `(tensor - tensor.min()) / (tensor.max() - tensor.min() + 1e-8)` */
  function Normalise(t: Tensor): (r: Tensor)
    requires |t.data| > 0
    ensures r.shape == t.shape && |r.data| == |t.data|
    ensures forall i :: 0 <= i < |r.data| ==> 0.0 <= r.data[i] < 1.0
  {
    var lo, hi := SeqMin(t.data), SeqMax(t.data);
    Tensor(t.shape, seq(|t.data|, i requires 0 <= i < |t.data| => Rescaled(t.data[i], lo, hi)))
  }

  /** One element of the normalisation, for an element between the minimum and the maximum. */
  function Rescaled(v: real, lo: real, hi: real): (r: real)
    requires lo <= v <= hi
    ensures 0.0 <= r < 1.0
  {
    UnitQuotient(v - lo, hi - lo + 0.00000001);
    (v - lo) / (hi - lo + 0.00000001)
  }

  lemma UnitQuotient(a: real, d: real)
    requires 0.0 <= a < d
    ensures 0.0 <= a / d < 1.0
  {
    assert a / d * d == a;
  }

  /** Normalisation keeps the order of the elements in both directions and sends the
      smallest element to 0. */
  lemma NormaliseOrder(t: Tensor, i: nat, j: nat)
    requires |t.data| > 0 && i < |t.data| && j < |t.data|
    ensures t.data[i] <= t.data[j] <==> Normalise(t).data[i] <= Normalise(t).data[j]
    ensures t.data[i] == SeqMin(t.data) ==> Normalise(t).data[i] == 0.0
  {
    var lo, hi := SeqMin(t.data), SeqMax(t.data);
    var d := hi - lo + 0.00000001;
    assert Normalise(t).data[i] == (t.data[i] - lo) / d;
    assert Normalise(t).data[j] == (t.data[j] - lo) / d;
    QuotientMonotone(t.data[i] - lo, t.data[j] - lo, d);
  }

  lemma QuotientMonotone(a: real, b: real, d: real)
    requires d > 0.0
    ensures a <= b <==> a / d <= b / d
  {
    assert a / d * d == a && b / d * d == b;
    if a / d <= b / d {
      assert (b / d - a / d) * d >= 0.0 * d;
    }
  }

  /** `NonLinearBlur`: the latent kernel is drawn on the first call and reused afterwards. */
  class NonLinearBlur {
    const noise: NoiseProcess
    const adapt: (Tensor, Tensor) -> Tensor  // `KernelWizard.adaptKernel(tensor, kernel)`
    var kernel: Option<Tensor>

    ghost predicate Valid()
      reads this
    {
      kernel.Some? ==> kernel.value.Valid() && kernel.value.shape == [1, 512, 2, 2]
    }

    constructor (noise: NoiseProcess, adapt: (Tensor, Tensor) -> Tensor)
      ensures Valid()
      ensures this.noise == noise && this.adapt == adapt && kernel == None
    {
      this.noise := noise;
      this.adapt := adapt;
      kernel := None;
    }

    /** `NonLinearBlur.__call__` with `generate_blur`: a 4-D input must hold a single
        image, which is blurred without its batch dimension and given it back. */
    method Call(t: Tensor) returns (r: Result<Tensor, OperatorError>)
      requires Valid() && t.Valid()
      modifies this
      ensures Valid()
      ensures t.Rank() == 4 && t.shape[0] != 1 ==> r == Failure(BatchSizeNotOne(t.shape)) && kernel == old(kernel)
      ensures !(t.Rank() == 4 && t.shape[0] != 1) ==> kernel.Some? && (old(kernel).Some? ==> kernel == old(kernel))
      ensures r.Success? <==> !(t.Rank() == 4 && t.shape[0] != 1) && |t.data| > 0
      ensures r.Failure? && !(t.Rank() == 4 && t.shape[0] != 1) ==> r.error == EmptyTensor
      ensures r.Success? && t.Rank() == 4 ==> r.value == Unsqueeze0(adapt(Normalise(Squeeze0(t)), kernel.value))
      ensures r.Success? && t.Rank() != 4 ==> r.value == adapt(Normalise(t), kernel.value)
    {
      var inputWas4d := t.Rank() == 4;
      var x := t;
      if inputWas4d {
        if t.shape[0] != 1 {
          return Failure(BatchSizeNotOne(t.shape));
        }
        x := Squeeze0(t);
      }
      if kernel.None? {
        assert Tensor([1, 512, 2, 2], seq(2048, _ => 0.0)).Valid();
        var drawn: Tensor :| drawn.Valid() && drawn.shape == [1, 512, 2, 2];
        kernel := Some(drawn);
      }
      if |x.data| == 0 {
        return Failure(EmptyTensor);
      }
      var blurred := adapt(Normalise(x), kernel.value);
      if inputWas4d {
        blurred := Unsqueeze0(blurred);
      }
      r := Success(blurred);
    }
  }

  // ---------------------------------------------------------------------------
  // Motion blur
  // ---------------------------------------------------------------------------

  /** `count` copies of `s`, one after the other. */
  function Repeat(s: seq<real>, count: nat): (r: seq<real>)
    ensures |r| == count * |s|
  {
    if count == 0 then [] else Repeat(s, count - 1) + s
  }

  /** Copy `k` of a repetition is the original. */
  lemma {:induction false} RepeatAt(s: seq<real>, count: nat, k: nat, i: nat)
    requires k < count && i < |s|
    ensures k * |s| + i < count * |s|
    ensures Repeat(s, count)[k * |s| + i] == s[i]
  {
    PlaneIndexBound(k, i, count, |s|);
    if k < count - 1 {
      PlaneIndexBound(k, i, count - 1, |s|);
      RepeatAt(s, count - 1, k, i);
    }
  }

  /** `kernel.unsqueeze(0).unsqueeze(0).repeat(channels, 1, 1, 1)`: one copy of the
      kernel matrix per channel, for a depthwise convolution. */
  function ChannelKernel(matrix: Tensor, channels: nat): (r: Tensor)
    requires matrix.Valid()
    ensures r.Valid() && r.shape == [channels, 1] + matrix.shape
  {
    ProductCons(1, matrix.shape);
    ProductCons(channels, [1] + matrix.shape);
    assert [channels, 1] + matrix.shape == [channels] + ([1] + matrix.shape);
    Tensor([channels, 1] + matrix.shape, Repeat(matrix.data, channels))
  }

  /** `MotionBlur`: the kernel is generated on the first call and reused afterwards. */
  class MotionBlur {
    const noise: NoiseProcess
    const kernelSize: (nat, nat)
    const intensity: real
    const conv: (Tensor, Tensor, nat) -> Tensor  // `F.conv2d(x, weight, padding, groups=channels)`
    var kernelTensor: Option<Tensor>

    ghost predicate Valid()
      reads this
    {
      kernelTensor.Some? ==>
        && kernelTensor.value.Valid()
        && |kernelTensor.value.shape| == 4
        && kernelTensor.value.shape[1..] == [1, kernelSize.0, kernelSize.1]
    }

    constructor (noise: NoiseProcess, kernelSize: (nat, nat), intensity: real, conv: (Tensor, Tensor, nat) -> Tensor)
      ensures Valid()
      ensures this.noise == noise && this.kernelSize == kernelSize && this.intensity == intensity
      ensures this.conv == conv && kernelTensor == None
    {
      this.noise := noise;
      this.kernelSize := kernelSize;
      this.intensity := intensity;
      this.conv := conv;
      kernelTensor := None;
    }

    /** `MotionBlur.__call__`: a depthwise convolution with padding `kernel_size[0] // 2`. */
    method Call(t: Tensor) returns (r: Result<Tensor, OperatorError>)
      requires Valid() && t.Valid()
      modifies this
      ensures Valid()
      ensures old(kernelTensor).Some? ==> kernelTensor == old(kernelTensor)
      ensures old(kernelTensor).None? && Promote(t).Rank() < 2 ==>
        r == Failure(MissingDimension(Promote(t).shape)) && kernelTensor == None
      ensures old(kernelTensor).None? && Promote(t).Rank() >= 2 ==>
        kernelTensor.Some? &&
        exists matrix: Tensor :: matrix.Valid() && matrix.shape == [kernelSize.0, kernelSize.1]
                                 && kernelTensor.value == ChannelKernel(matrix, Promote(t).shape[1])
      ensures r.Success? <==>
        && Promote(t).Rank() == 4 && kernelTensor.Some? && Promote(t).shape[1] > 0
        && kernelTensor.value.shape[0] % Promote(t).shape[1] == 0
      ensures r.Success? ==>
        var blurred := conv(Promote(t), kernelTensor.value, kernelSize.0 / 2);
        r.value == if Promote(t).shape[0] == 1 then Squeeze0(blurred) else blurred
    {
      var x := Promote(t);
      if kernelTensor.None? {
        if x.Rank() < 2 {
          return Failure(MissingDimension(x.shape));
        }
        assert Product([kernelSize.1]) == kernelSize.1 by {
          assert [kernelSize.1][1..] == [];
        }
        assert Product([kernelSize.0, kernelSize.1]) == kernelSize.0 * kernelSize.1 by {
          assert [kernelSize.0, kernelSize.1][1..] == [kernelSize.1];
        }
        assert Tensor([kernelSize.0, kernelSize.1], seq(kernelSize.0 * kernelSize.1, _ => 0.0)).Valid();
        var matrix: Tensor :| matrix.Valid() && matrix.shape == [kernelSize.0, kernelSize.1];
        kernelTensor := Some(ChannelKernel(matrix, x.shape[1]));
      }
      if x.Rank() < 2 {
        return Failure(MissingDimension(x.shape));
      }
      if x.Rank() != 4 {
        return Failure(NotFourDimensional(x.shape));
      }
      var channels := x.shape[1];
      if channels == 0 || kernelTensor.value.shape[0] % channels != 0 {
        return Failure(KernelChannelMismatch(kernelTensor.value.shape[0], channels));
      }
      var blurred := conv(x, kernelTensor.value, kernelSize.0 / 2);
      r := Success(if x.shape[0] == 1 then Squeeze0(blurred) else blurred);
    }
  }
}
