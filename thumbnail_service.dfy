/**
 * The thumbnail geometry of the image service: which canvas to allocate for
 * a requested frame and resize mode, and which centred part of the source
 * image to sample so that it fills that canvas.
 *
 * The service computes in single-precision floating point; this model uses
 * exact arithmetic instead. An aspect-ratio comparison a/b > c/d of positive
 * sizes is the cross-multiplied a*d > c*b, and each truncating cast of a
 * non-negative product-and-quotient is the floor of the exact rational.
 */
module ThumbnailService {

  /** The resize policies a caller may ask for. */
  datatype ResizeMode = Crop | Letterbox | Loose

  /** A location and a size, all in whole pixels. */
  datatype Rectangle = Rectangle(x: int, y: int, width: int, height: int)

  /** A location in whole pixels. */
  datatype Point = Point(x: int, y: int)

  /** The dimensions of a source image, the only part of it the geometry reads. */
  datatype Size = Size(width: int, height: int)

  /** Why a thumbnail could not be produced. */
  datatype Error =
    /** The canvas bitmap was asked for with a zero or negative side. */
    | InvalidCanvasSize

  datatype Result<T> = Ok(value: T) | Err(error: Error)

  /** What the composed operation decides before it draws. */
  datatype Geometry = Geometry(canvas: Rectangle, sample: Rectangle)

  /** A decoded image always has positive sides. */
  predicate Positive(s: Size) {
    s.width > 0 && s.height > 0
  }

  /** The aspect ratio w1/h1 is strictly greater than w2/h2 (positive sides). */
  predicate RelativelyWider(w1: int, h1: int, w2: int, h2: int) {
    w1 * h2 > w2 * h1
  }

  /** The rectangle lies inside a source of the given size. */
  predicate InsideSource(r: Rectangle, s: Size) {
    0 <= r.x && r.x + r.width <= s.width && 0 <= r.y && r.y + r.height <= s.height
  }

  /** The truncating cast of a * (num / den), or of a / (den / num): the floor of a*num/den. */
  function FloorScale(a: nat, num: nat, den: int): (q: nat)
    requires den > 0
    ensures q * den <= a * num < q * den + den
  {
    (a * num) / den
  }

  /** The truncating cast of d / 2.0: halving rounded toward zero. */
  function HalfTowardZero(d: int): (h: int)
    ensures 0 <= d ==> 0 <= 2 * h && 0 <= d - 2 * h <= 1
    ensures d < 0 ==> 2 * h <= 0 && -1 <= d - 2 * h <= 0
  {
    if d >= 0 then d / 2 else -((-d) / 2)
  }

  /**
   * The location that centres `result` inside a width-by-height area: the
   * margin before it and the margin after it differ by at most one pixel, the
   * extra pixel going after when the slack is odd (toward zero when negative).
   */
  function CenterRectangle(width: int, height: int, result: Rectangle): (p: Point)
    ensures var slack := width - result.width;
      (0 <= slack ==> 0 <= p.x && 0 <= slack - 2 * p.x <= 1) &&
      (slack < 0 ==> p.x <= 0 && -1 <= slack - 2 * p.x <= 0)
    ensures var slack := height - result.height;
      (0 <= slack ==> 0 <= p.y && 0 <= slack - 2 * p.y <= 1) &&
      (slack < 0 ==> p.y <= 0 && -1 <= slack - 2 * p.y <= 0)
  {
    Point(HalfTowardZero(width - result.width), HalfTowardZero(height - result.height))
  }

  /** a * c < b * c with c > 0 gives a < b. */
  lemma CancelLess(a: int, b: int, c: int)
    requires c > 0 && a * c < b * c
    ensures a < b
  {
  }

  /** a * c <= b * c with c > 0 gives a <= b. */
  lemma CancelLessEq(a: int, b: int, c: int)
    requires c > 0 && a * c <= b * c
    ensures a <= b
  {
  }

  /** The floor of a*num/den is at least one exactly when a*num reaches den. */
  lemma FloorScaleNonZero(a: nat, num: nat, den: int)
    requires den > 0
    ensures FloorScale(a, num, den) >= 1 <==> a * num >= den
  {
    var q := FloorScale(a, num, den);
    if q >= 1 {
      assert q * den >= den;
    }
  }

  /**
   * The canvas for a source and a requested frame. Crop and Letterbox both
   * take the frame as it is; Loose keeps the source's aspect ratio and fits
   * it inside the frame, filling the width when the source is relatively
   * wider and the height otherwise (equal ratios fill the height).
   */
  function CalculateCanvasRectangle(source: Size, targetWidth: int, targetHeight: int,
                                    mode: ResizeMode): (r: Rectangle)
    requires Positive(source)
    requires mode == Loose ==> targetWidth > 0 && targetHeight > 0
    ensures r.x == 0 && r.y == 0
    ensures mode != Loose ==> r.width == targetWidth && r.height == targetHeight
    ensures mode == Loose && RelativelyWider(source.width, source.height, targetWidth, targetHeight) ==>
      && r.width == targetWidth
      && r.height * source.width <= source.height * targetWidth < (r.height + 1) * source.width
      && 0 <= r.height < targetHeight
    ensures mode == Loose && !RelativelyWider(source.width, source.height, targetWidth, targetHeight) ==>
      && r.height == targetHeight
      && r.width * source.height <= source.width * targetHeight < (r.width + 1) * source.height
      && 0 <= r.width <= targetWidth
    ensures mode == Loose ==>
      0 <= r.width <= targetWidth && 0 <= r.height <= targetHeight &&
      (r.width == targetWidth || r.height == targetHeight)
  {
    match mode
    case Crop | Letterbox =>
      Rectangle(0, 0, targetWidth, targetHeight)
    case Loose =>
      if RelativelyWider(source.width, source.height, targetWidth, targetHeight) then
        var h := FloorScale(source.height, targetWidth, source.width);
        CancelLess(h, targetHeight, source.width);
        Rectangle(0, 0, targetWidth, h)
      else
        var w := FloorScale(source.width, targetHeight, source.height);
        CancelLessEq(w, targetWidth, source.height);
        Rectangle(0, 0, w, targetHeight)
  }

  /**
   * The part of the source to sample so that it fills a targetWidth by
   * targetHeight canvas at the canvas's aspect ratio. A relatively wider
   * source keeps its full height and is cut left and right; otherwise the
   * full width is kept and it is cut top and bottom. The cut is centred.
   */
  function CalculateCropZoomRectangle(sourceWidth: int, sourceHeight: int,
                                      targetWidth: int, targetHeight: int): (r: Rectangle)
    requires sourceWidth > 0 && sourceHeight > 0 && targetWidth > 0 && targetHeight > 0
    ensures RelativelyWider(sourceWidth, sourceHeight, targetWidth, targetHeight) ==>
      && r.height == sourceHeight
      && r.width * targetHeight <= targetWidth * sourceHeight < (r.width + 1) * targetHeight
      && 0 <= r.width < sourceWidth
    ensures !RelativelyWider(sourceWidth, sourceHeight, targetWidth, targetHeight) ==>
      && r.width == sourceWidth
      && r.height * targetWidth <= targetHeight * sourceWidth < (r.height + 1) * targetWidth
      && 0 <= r.height <= sourceHeight
    ensures r.width == sourceWidth || r.height == sourceHeight
    ensures InsideSource(r, Size(sourceWidth, sourceHeight))
    ensures 0 <= (sourceWidth - r.x - r.width) - r.x <= 1
    ensures 0 <= (sourceHeight - r.y - r.height) - r.y <= 1
  {
    var size := (
      if RelativelyWider(sourceWidth, sourceHeight, targetWidth, targetHeight) then
        var w := FloorScale(targetWidth, sourceHeight, targetHeight);
        CancelLess(w, sourceWidth, targetHeight);
        Rectangle(0, 0, w, sourceHeight)
      else
        var h := FloorScale(targetHeight, sourceWidth, targetWidth);
        CancelLessEq(h, sourceHeight, targetWidth);
        Rectangle(0, 0, sourceWidth, h));
    var location := CenterRectangle(sourceWidth, sourceHeight, size);
    size.(x := location.x, y := location.y)
  }

  /**
   * A Loose canvas has no zero side exactly when the side the fit shrinks
   * keeps at least one pixel: a relatively wider source must be at least as
   * many pixels wide as it would be shrunk by, and likewise for a taller one.
   */
  predicate LooseCanvasNonEmpty(source: Size, width: int, height: int) {
    if RelativelyWider(source.width, source.height, width, height)
    then source.height * width >= source.width
    else source.width * height >= source.height
  }

  lemma LooseCanvasSides(source: Size, width: int, height: int)
    requires Positive(source) && width > 0 && height > 0
    ensures var canvas := CalculateCanvasRectangle(source, width, height, Loose);
      canvas.width > 0 && canvas.height > 0 <==> LooseCanvasNonEmpty(source, width, height)
  {
    FloorScaleNonZero(source.height, width, source.width);
    FloorScaleNonZero(source.width, height, source.height);
  }

  /**
   * The geometry of one thumbnail: the canvas for the requested frame, then
   * the centred part of the source that fills it. Allocating the canvas
   * bitmap fails when either of its sides is zero or negative.
   */
  function ThumbnailGeometry(source: Size, width: int, height: int, mode: ResizeMode): (r: Result<Geometry>)
    requires Positive(source)
    requires mode == Loose ==> width > 0 && height > 0
    ensures mode != Loose ==> (r.Ok? <==> width > 0 && height > 0)
    ensures mode == Loose ==>
      (r.Ok? <==> LooseCanvasNonEmpty(source, width, height))
    ensures r.Ok? ==>
      && r.value.canvas.x == 0 && r.value.canvas.y == 0
      && 0 < r.value.canvas.width <= width && 0 < r.value.canvas.height <= height
      && InsideSource(r.value.sample, source)
      && (r.value.sample.width == source.width || r.value.sample.height == source.height)
    ensures r.Ok? && mode != Loose ==> r.value.canvas == Rectangle(0, 0, width, height)
  {
    var canvas := CalculateCanvasRectangle(source, width, height, mode);
    assert mode == Loose ==> (canvas.width > 0 && canvas.height > 0 <==> LooseCanvasNonEmpty(source, width, height)) by {
      if mode == Loose {
        LooseCanvasSides(source, width, height);
      }
    }
    if canvas.width <= 0 || canvas.height <= 0 then
      Err(InvalidCanvasSize)
    else
      var sample := CalculateCropZoomRectangle(source.width, source.height, canvas.width, canvas.height);
      Ok(Geometry(canvas, sample))
  }

  /** With equal aspect ratios nothing is cut: the sample is the whole source. */
  lemma EqualAspectSamplesWholeSource(sourceWidth: int, sourceHeight: int,
                                      targetWidth: int, targetHeight: int)
    requires sourceWidth > 0 && sourceHeight > 0 && targetWidth > 0 && targetHeight > 0
    requires sourceWidth * targetHeight == targetWidth * sourceHeight
    ensures CalculateCropZoomRectangle(sourceWidth, sourceHeight, targetWidth, targetHeight)
            == Rectangle(0, 0, sourceWidth, sourceHeight)
  {
    var r := CalculateCropZoomRectangle(sourceWidth, sourceHeight, targetWidth, targetHeight);
    assert r.height * targetWidth <= sourceHeight * targetWidth;
    assert sourceHeight * targetWidth < (r.height + 1) * targetWidth;
    CancelLessEq(sourceHeight, r.height, targetWidth);
  }

  /** With equal aspect ratios a Loose canvas is the whole frame. */
  lemma EqualAspectLooseCanvasIsFrame(source: Size, width: int, height: int)
    requires Positive(source) && width > 0 && height > 0
    requires source.width * height == width * source.height
    ensures CalculateCanvasRectangle(source, width, height, Loose) == Rectangle(0, 0, width, height)
  {
    var r := CalculateCanvasRectangle(source, width, height, Loose);
    assert source.width * height < (r.width + 1) * source.height;
    CancelLess(width, r.width + 1, source.height);
  }

  /** The composed geometry does not distinguish Letterbox from Crop. */
  lemma LetterboxSamplesLikeCrop(source: Size, width: int, height: int)
    requires Positive(source)
    ensures ThumbnailGeometry(source, width, height, Letterbox) == ThumbnailGeometry(source, width, height, Crop)
  {
  }

  /**
   * A canvas whose aspect ratio is within one pixel of the source's, on the
   * side it was fitted by, is sampled nearly whole: at least one full side,
   * and the other loses fewer pixels than one canvas pixel stands for, plus one.
   */
  lemma NearAspectSamplesNearlyWhole(sw: int, sh: int, cw: int, ch: int)
    requires sw > 0 && sh > 0 && cw > 0 && ch > 0
    requires (cw * sh <= sw * ch < cw * sh + sh) || (ch * sw <= sh * cw < ch * sw + sw)
    ensures var r := CalculateCropZoomRectangle(sw, sh, cw, ch);
      && (sw - r.width) * ch < sh + ch
      && (sh - r.height) * cw < sw + cw
  {
    var r := CalculateCropZoomRectangle(sw, sh, cw, ch);
    if RelativelyWider(sw, sh, cw, ch) {
      assert r.height == sh;
      assert r.width * ch + ch > cw * sh;
      assert sw * ch < cw * sh + sh;
      assert (sw - r.width) * ch == sw * ch - r.width * ch;
    } else {
      assert r.width == sw;
      assert r.height * cw + cw > ch * sw;
      assert sh * cw < ch * sw + sw;
      assert (sh - r.height) * cw == sh * cw - r.height * cw;
    }
  }

  /**
   * A Loose thumbnail draws the source whole up to rounding: the sample keeps
   * at least one full side, and the other side loses fewer pixels than one
   * pixel of the canvas stands for, plus one.
   */
  lemma LooseSamplesNearlyWholeSource(source: Size, width: int, height: int)
    requires Positive(source) && width > 0 && height > 0
    requires ThumbnailGeometry(source, width, height, Loose).Ok?
    ensures var g := ThumbnailGeometry(source, width, height, Loose).value;
      && (source.width - g.sample.width) * g.canvas.height < source.height + g.canvas.height
      && (source.height - g.sample.height) * g.canvas.width < source.width + g.canvas.width
  {
    var g := ThumbnailGeometry(source, width, height, Loose).value;
    assert g.canvas == CalculateCanvasRectangle(source, width, height, Loose);
    assert g.sample == CalculateCropZoomRectangle(source.width, source.height, g.canvas.width, g.canvas.height);
    NearAspectSamplesNearlyWhole(source.width, source.height, g.canvas.width, g.canvas.height);
  }

  /** The worked cases: a 1600x1200 photograph into an 800x800 frame, and others. */
  lemma WorkedExamples()
    ensures CalculateCanvasRectangle(Size(1600, 1200), 800, 800, Loose) == Rectangle(0, 0, 800, 600)
    ensures CalculateCanvasRectangle(Size(1600, 1200), 800, 800, Crop) == Rectangle(0, 0, 800, 800)
    ensures CalculateCropZoomRectangle(1600, 1200, 800, 800) == Rectangle(200, 0, 1200, 1200)
    ensures CalculateCropZoomRectangle(1000, 2000, 800, 800) == Rectangle(0, 500, 1000, 1000)
    ensures CalculateCropZoomRectangle(500, 500, 500, 500) == Rectangle(0, 0, 500, 500)
    ensures ThumbnailGeometry(Size(2000, 1), 800, 800, Loose) == Err(InvalidCanvasSize)
  {
  }
}
