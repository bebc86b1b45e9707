/**
 The brightness/contrast display pass (`apply_display_adjustments`,
 `update_display`) and the row stride chosen for the 8-bit image
 (`numpy_to_qimage`). Samples are real numbers; the float16/float32
 rounding of numpy is not modelled.
 */
module Display {
  import opened ExrTypes

  /** `np.clip(x, lo, hi)`. */
  function Clip(x: real, lo: real, hi: real): (r: real)
    requires lo <= hi
    ensures lo <= r <= hi
    ensures lo <= x <= hi ==> r == x
  {
    if x < lo then lo else if x > hi then hi else x
  }

  /** Conversion of a float to an integer type: truncation toward zero. */
  function Trunc(x: real): (n: int)
    ensures x >= 0.0 ==> n as real <= x < n as real + 1.0
    ensures x < 0.0 ==> n as real - 1.0 < x <= n as real
  {
    if x >= 0.0 then x.Floor else -((-x).Floor)
  }

  /** One display sample: `trunc(clip((v - 0.5) * contrast + 0.5 + brightness, 0, 1) * 255)`. */
  function AdjustSample(v: real, brightness: real, contrast: real): (r: int)
    ensures 0 <= r <= 255
  {
    Trunc(Clip((v - 0.5) * contrast + 0.5 + brightness, 0.0, 1.0) * 255.0)
  }

  /** With brightness 0 and contrast 1 a sample in [0, 1] is just quantised: `trunc(v * 255)`. */
  lemma NeutralAdjustmentQuantises(v: real)
    requires 0.0 <= v <= 1.0
    ensures AdjustSample(v, 0.0, 1.0) == (v * 255.0).Floor
  {
    assert (v - 0.5) * 1.0 + 0.5 + 0.0 == v;
  }

  /** For a non-negative contrast, a brighter input never gives a darker output. */
  lemma AdjustMonotone(u: real, v: real, brightness: real, contrast: real)
    requires u <= v
    requires contrast >= 0.0
    ensures AdjustSample(u, brightness, contrast) <= AdjustSample(v, brightness, contrast)
  {
    var x := (u - 0.5) * contrast + 0.5 + brightness;
    var y := (v - 0.5) * contrast + 0.5 + brightness;
    assert y - x == (v - u) * contrast;
    assert (v - u) * contrast >= 0.0;
    assert x <= y;
    var cx := Clip(x, 0.0, 1.0);
    var cy := Clip(y, 0.0, 1.0);
    assert cx <= cy;
    assert cx * 255.0 <= cy * 255.0;
  }

  /** With contrast 0 every sample shows the same value, `trunc(clip(0.5 + brightness, 0, 1) * 255)`. */
  lemma ZeroContrastIsFlat(u: real, v: real, brightness: real)
    ensures AdjustSample(u, brightness, 0.0) == AdjustSample(v, brightness, 0.0)
  {
    assert (u - 0.5) * 0.0 == 0.0 == (v - 0.5) * 0.0;
  }

  /** How many axes the array has: a single plane is 2-D, an `np.stack(..., axis=-1)` is 3-D. */
  datatype Layout = Plane2D | Stacked3D(depth: nat)

  /** A float preview array: its shape and its samples in row-major order. */
  datatype FloatImage = FloatImage(height: nat, width: nat, layout: Layout, samples: seq<real>)

  /** A `uint8` array of the same shape. */
  datatype ByteImage = ByteImage(height: nat, width: nat, layout: Layout, samples: seq<int>)

  /**
   `apply_display_adjustments`: nothing for nothing; otherwise a new array of
   the same shape whose every sample is the adjusted, clipped and truncated
   input sample, hence within 0..255.
   */
  function ApplyDisplayAdjustments(img: Option<FloatImage>, brightness: real, contrast: real): (r: Option<ByteImage>)
    ensures r.None? <==> img.None?
    ensures r.Some? ==>
      && r.value.height == img.value.height && r.value.width == img.value.width
      && r.value.layout == img.value.layout
      && |r.value.samples| == |img.value.samples|
      && (forall i :: 0 <= i < |r.value.samples| ==> 0 <= r.value.samples[i] <= 255)
      && (forall i :: 0 <= i < |r.value.samples| ==>
            r.value.samples[i] == AdjustSample(img.value.samples[i], brightness, contrast))
  {
    match img
    case None => None
    case Some(f) =>
      var out := seq(|f.samples|, i requires 0 <= i < |f.samples| => AdjustSample(f.samples[i], brightness, contrast));
      Some(ByteImage(f.height, f.width, f.layout, out))
  }

  /**
   At brightness 0 and contrast 1 an image whose samples lie in [0, 1] is
   only quantised, sample by sample.
   */
  lemma NeutralImageQuantises(img: FloatImage)
    requires forall i :: 0 <= i < |img.samples| ==> 0.0 <= img.samples[i] <= 1.0
    ensures var r := ApplyDisplayAdjustments(Some(img), 0.0, 1.0).value;
      forall i :: 0 <= i < |img.samples| ==> r.samples[i] == (img.samples[i] * 255.0).Floor
  {
    forall i | 0 <= i < |img.samples|
      ensures AdjustSample(img.samples[i], 0.0, 1.0) == (img.samples[i] * 255.0).Floor
    {
      NeutralAdjustmentQuantises(img.samples[i]);
    }
  }

  /** Pixel formats the viewer hands to Qt. */
  datatype PixelFormat = Rgba8888 | Grayscale8

  function BytesPerPixel(f: PixelFormat): nat {
    match f
    case Rgba8888 => 4
    case Grayscale8 => 1
  }

  /** The arguments `QImage` is built with. */
  datatype QImageDesc = QImageDesc(width: nat, height: nat, bytesPerLine: nat, format: PixelFormat, samples: seq<int>)

  /**
   `numpy_to_qimage`: a 3-D array becomes RGBA8888 with `4 * width` bytes per
   line, anything else Grayscale8 with `width` bytes per line; a line holds
   exactly `width` pixels of the chosen format.
   */
  function NumpyToQImage(img: Option<ByteImage>): (r: Option<QImageDesc>)
    ensures r.None? <==> img.None?
    ensures r.Some? ==>
      && r.value.width == img.value.width && r.value.height == img.value.height
      && r.value.bytesPerLine == r.value.width * BytesPerPixel(r.value.format)
      && (r.value.format == Rgba8888 <==> img.value.layout.Stacked3D?)
      && r.value.samples == img.value.samples
  {
    match img
    case None => None
    case Some(b) =>
      match b.layout
      case Stacked3D(_) => Some(QImageDesc(b.width, b.height, 4 * b.width, Rgba8888, b.samples))
      case Plane2D => Some(QImageDesc(b.width, b.height, 1 * b.width, Grayscale8, b.samples))
  }

  function ClampInt(x: int, lo: int, hi: int): int
    requires lo <= hi
  {
    if x < lo then lo else if x > hi then hi else x
  }

  /** The brightness slider spans -100..100; its value over 100 lies in [-1, 1]. */
  function BrightnessOf(slider: int): (b: real)
    ensures -1.0 <= b <= 1.0
    ensures -100 <= slider <= 100 ==> b * 100.0 == slider as real
  {
    ClampInt(slider, -100, 100) as real / 100.0
  }

  /** The contrast slider spans 0..300; its value over 100 lies in [0, 3]. */
  function ContrastOf(slider: int): (c: real)
    ensures 0.0 <= c <= 3.0
    ensures 0 <= slider <= 300 ==> c * 100.0 == slider as real
  {
    ClampInt(slider, 0, 300) as real / 100.0
  }

  datatype DisplayOutcome = Cleared | Shown(image: QImageDesc)

  /**
   `update_display`: a cleared preview without data; otherwise the data
   adjusted with the sliders' brightness and contrast and laid out with the
   stride of its dimensionality.
   */
  function UpdateDisplay(preview: Option<FloatImage>, brightnessSlider: int, contrastSlider: int): (r: DisplayOutcome)
    ensures r.Cleared? <==> preview.None?
    ensures r.Shown? ==>
      && |r.image.samples| == |preview.value.samples|
      && (forall i :: 0 <= i < |r.image.samples| ==> 0 <= r.image.samples[i] <= 255)
      && (forall i :: 0 <= i < |r.image.samples| ==>
            r.image.samples[i] == AdjustSample(preview.value.samples[i], BrightnessOf(brightnessSlider), ContrastOf(contrastSlider)))
      && r.image.width == preview.value.width && r.image.height == preview.value.height
      && r.image.bytesPerLine == (if preview.value.layout.Stacked3D? then 4 else 1) * preview.value.width
  {
    match NumpyToQImage(ApplyDisplayAdjustments(preview, BrightnessOf(brightnessSlider), ContrastOf(contrastSlider)))
    case None => Cleared
    case Some(q) => Shown(q)
  }

  /**
   Right after a selection the sliders sit at 0 and 100, so a preview whose
   samples lie in [0, 1] is shown as their plain quantisation.
   */
  lemma ResetSlidersShowQuantisation(img: FloatImage)
    requires forall i :: 0 <= i < |img.samples| ==> 0.0 <= img.samples[i] <= 1.0
    ensures var r := UpdateDisplay(Some(img), 0, 100);
      r.Shown? && forall i :: 0 <= i < |img.samples| ==> r.image.samples[i] == (img.samples[i] * 255.0).Floor
  {
    assert BrightnessOf(0) == 0.0;
    assert ContrastOf(100) == 1.0;
    NeutralImageQuantises(img);
  }
}
