/**
 * The segmenters of the vegetable-image pipeline: CLAHE contrast enhancement
 * on the lightness channel, GrabCut seeded with a centred rectangle,
 * adaptive thresholding that keeps the largest contour, an HSV colour range,
 * and the U2Net-P background remover with its HSV fallback. Each one turns a
 * BGR image into an image of the same shape; the three mask-based ones only
 * ever keep a pixel or blacken it.
 */
module Segmentation {
  import opened Images
  import opened Outcomes
  import opened Vision

  // ---------------------------------------------------------------------
  // CLAHE

  const DefaultClipLimit: real := 2.0
  const DefaultTileGrid: nat := 8

  /**
   * The LAB image with CLAHE applied to its L channel and merged back with
   * the untouched a and b channels.
   */
  function EnhanceLightness(v: Vision, lab: Image, clipLimit: real, tilesX: nat, tilesY: nat): (r: Image)
    requires v.PlaneSound()
    ensures SameShape(r, lab)
    ensures Split(r).1 == Split(lab).1 && Split(r).2 == Split(lab).2
    ensures SameDims(Split(r).0, Split(lab).0)
  {
    var l := Split(lab).0;
    WithChannel0(lab, v.clahe(l, clipLimit, tilesX, tilesY))
  }

  /** apply_clahe: to LAB, CLAHE on lightness only, back to BGR; the shape is kept. */
  function ApplyClahe(v: Vision, img: Image, clipLimit: real, tilesX: nat, tilesY: nat): (r: Image)
    requires v.ColourSound() && v.PlaneSound()
    ensures SameShape(r, img)
    ensures img.Valid() ==> r.Valid()
  {
    var r := v.labToBgr(EnhanceLightness(v, v.bgrToLab(img), clipLimit, tilesX, tilesY));
    if img.Valid() then SameShapeValid(r, img); r else r
  }

  // ---------------------------------------------------------------------
  // GrabCut

  /** GrabCut's per-pixel labels. */
  const GcBackground: Byte := 0
  const GcForeground: Byte := 1
  const GcProbableBackground: Byte := 2
  const GcProbableForeground: Byte := 3

  function Min(a: int, b: int): int
  {
    if a <= b then a else b
  }

  /**
   * The seed rectangle (margin, margin, w - 2 margin, h - 2 margin) with
   * margin = int(min(h, w) * 0.1): a tenth of the shorter side, rounded
   * down, left free on all four sides, so the rectangle lies inside the
   * image and is centred in it.
   */
  function GrabCutRect(h: nat, w: nat): (r: Rect)
    ensures 0 <= r.x && r.x == r.y
    ensures 10 * r.x <= Min(h, w) < 10 * (r.x + 1)
    ensures 0 <= r.width && r.x + r.width + r.x == w
    ensures 0 <= r.height && r.y + r.height + r.y == h
  {
    var margin := Min(h, w) / 10;
    Rect(margin, margin, w - 2 * margin, h - 2 * margin)
  }

  /** Whether a GrabCut label marks (probable) foreground: neither 0 nor 2. */
  predicate IsForegroundLabel(tag: Byte)
  {
    !(tag == GcBackground || tag == GcProbableBackground)
  }

  /** np.where((mask == 2) | (mask == 0), 0, 1): a 0/1 mask of the same size. */
  function CollapseLabels(labels: Plane): (m: Plane)
    ensures SameDims(m, labels)
    ensures forall i :: 0 <= i < |m.values| ==> m.values[i] == 0 || m.values[i] == 1
    ensures forall i :: 0 <= i < |m.values| ==> (m.values[i] == 1 <==> IsForegroundLabel(labels.values[i]))
    ensures forall i :: 0 <= i < |m.values| ==>
      (labels.values[i] == GcBackground || labels.values[i] == GcProbableBackground ==> m.values[i] == 0)
    ensures forall i :: 0 <= i < |m.values| ==>
      (labels.values[i] == GcForeground || labels.values[i] == GcProbableForeground ==> m.values[i] == 1)
  {
    Plane(labels.height, labels.width,
          seq(|labels.values|, i requires 0 <= i < |labels.values| =>
            if IsForegroundLabel(labels.values[i]) then 1 else 0))
  }

  /** The label map cv2.grabCut leaves in `mask` for this image. */
  function GrabCutLabels(v: Vision, img: Image, iterations: nat): Plane
  {
    v.grabCut(img, GrabCutRect(img.height, img.width), iterations)
  }

  /**
   * segment_grabcut: the image times the collapsed label mask. A pixel is
   * kept exactly where GrabCut labelled it (probable) foreground and is
   * black everywhere else; the uint8 product never wraps since the mask is 0/1.
   */
  function SegmentGrabCut(v: Vision, img: Image, iterations: nat): (r: Image)
    requires v.MaskSound()
    ensures MaskedFrom(r, img)
    ensures forall i :: 0 <= i < |img.pixels| ==>
      r.pixels[i] == if IsForegroundLabel(GrabCutLabels(v, img, iterations).values[i]) then img.pixels[i] else Black
  {
    var mask := CollapseLabels(GrabCutLabels(v, img, iterations));
    MultiplyBinaryMask(img, mask);
    MultiplyMask(img, mask)
  }

  // ---------------------------------------------------------------------
  // Adaptive threshold

  /**
   * The index Python's max(..., key=...) picks: a largest element, the first
   * one when several are equally large.
   */
  function FirstMaxIndex(s: seq<real>): (k: nat)
    requires |s| > 0
    ensures k < |s|
    ensures forall j :: 0 <= j < |s| ==> s[j] <= s[k]
    ensures forall j :: 0 <= j < k ==> s[j] < s[k]
  {
    if |s| == 1 then 0
    else
      var k := FirstMaxIndex(s[..|s| - 1]);
      if s[|s| - 1] > s[k] then |s| - 1 else k
  }

  /** max(contours, key=cv2.contourArea): the first contour of largest area. */
  function LargestContour(v: Vision, contours: seq<Contour>): (c: Contour)
    requires |contours| > 0
    ensures c in contours
    ensures forall d :: d in contours ==> v.contourArea(d) <= v.contourArea(c)
    ensures exists k ::
      0 <= k < |contours| && contours[k] == c &&
      forall j :: 0 <= j < k ==> v.contourArea(contours[j]) < v.contourArea(c)
  {
    var areas := seq(|contours|, i requires 0 <= i < |contours| => v.contourArea(contours[i]));
    var k := FirstMaxIndex(areas);
    assert forall j :: 0 <= j < |contours| ==> areas[j] == v.contourArea(contours[j]);
    contours[k]
  }

  /** The cleaned-up threshold mask: blur, inverted adaptive threshold, closing then opening. */
  function ThresholdMask(v: Vision, gray: Plane, kernelSize: nat): Plane
  {
    var blurred := v.gaussianBlur(gray, 5);
    var thresh := v.adaptiveThreshold(blurred);
    v.morphOpen(v.morphClose(thresh, kernelSize), kernelSize)
  }

  /** The filled largest contour of the threshold mask, or None when there is no contour. */
  function AdaptiveMask(v: Vision, img: Image, kernelSize: nat): (m: Option<Plane>)
    requires v.ColourSound() && v.MaskSound()
    ensures m.Some? ==> m.value.Fits(img)
    ensures var contours := v.findContours(ThresholdMask(v, v.bgrToGray(img), kernelSize));
      (m.None? <==> |contours| == 0) &&
      (m.Some? ==> m.value == v.fillContour(v.bgrToGray(img), LargestContour(v, contours)))
  {
    var gray := v.bgrToGray(img);
    var contours := v.findContours(ThresholdMask(v, gray, kernelSize));
    if |contours| == 0 then None
    else Some(v.fillContour(gray, LargestContour(v, contours)))
  }

  /**
   * segment_adaptive_threshold: with no contour the image comes back as it
   * is; otherwise a pixel is kept exactly where the filled largest contour
   * is nonzero and is black elsewhere.
   */
  function SegmentAdaptiveThreshold(v: Vision, img: Image, kernelSize: nat): (r: Image)
    requires v.ColourSound() && v.MaskSound()
    ensures MaskedFrom(r, img)
    ensures AdaptiveMask(v, img, kernelSize).None? ==> r == img
    ensures AdaptiveMask(v, img, kernelSize).Some? ==>
      forall i :: 0 <= i < |img.pixels| ==>
        r.pixels[i] == if AdaptiveMask(v, img, kernelSize).value.values[i] != 0 then img.pixels[i] else Black
  {
    match AdaptiveMask(v, img, kernelSize)
    case None => img
    case Some(mask) => ApplyMask(img, mask)
  }

  // ---------------------------------------------------------------------
  // HSV colour range

  /** Per-channel inclusive bounds (H, S, V). */
  datatype Bounds = Bounds(c0: int, c1: int, c2: int)

  const HsvLower: Bounds := Bounds(20, 40, 40)
  const HsvUpper: Bounds := Bounds(180, 255, 255)

  predicate InBounds(p: Pixel, lower: Bounds, upper: Bounds)
  {
    lower.c0 <= p.c0 <= upper.c0 && lower.c1 <= p.c1 <= upper.c1 && lower.c2 <= p.c2 <= upper.c2
  }

  /** cv2.inRange: 255 where every channel lies within its bounds, 0 elsewhere. */
  function InRange(img: Image, lower: Bounds, upper: Bounds): (m: Plane)
    ensures m.Fits(img)
    ensures forall i :: 0 <= i < |m.values| ==> m.values[i] == 0 || m.values[i] == 255
    ensures forall i :: 0 <= i < |m.values| ==> (m.values[i] == 255 <==> InBounds(img.pixels[i], lower, upper))
  {
    Plane(img.height, img.width,
          seq(|img.pixels|, i requires 0 <= i < |img.pixels| =>
            if InBounds(img.pixels[i], lower, upper) then 255 else 0))
  }

  /** The HSV range mask after closing and opening with a 5 x 5 kernel. */
  function HsvMask(v: Vision, img: Image, lower: Bounds, upper: Bounds): (m: Plane)
    requires v.ColourSound() && v.PlaneSound()
    ensures m.Fits(img)
  {
    var hsv := v.bgrToHsv(img);
    v.morphOpen(v.morphClose(InRange(hsv, lower, upper), 5), 5)
  }

  /** segment_hsv_color: a pixel is kept where the refined HSV mask is nonzero, black elsewhere. */
  function SegmentHsvColor(v: Vision, img: Image, lower: Bounds, upper: Bounds): (r: Image)
    requires v.ColourSound() && v.PlaneSound()
    ensures MaskedFrom(r, img)
    ensures forall i :: 0 <= i < |img.pixels| ==>
      r.pixels[i] == if HsvMask(v, img, lower, upper).values[i] != 0 then img.pixels[i] else Black
  {
    ApplyMask(img, HsvMask(v, img, lower, upper))
  }

  /**
   * Where the morphology leaves the range mask as it is, a pixel survives
   * exactly when its HSV value lies within the bounds.
   */
  lemma HsvKeepsExactlyInRange(v: Vision, img: Image, lower: Bounds, upper: Bounds, i: int)
    requires v.ColourSound() && v.PlaneSound()
    requires 0 <= i < |img.pixels|
    requires HsvMask(v, img, lower, upper) == InRange(v.bgrToHsv(img), lower, upper)
    ensures SegmentHsvColor(v, img, lower, upper).pixels[i] ==
      if InBounds(v.bgrToHsv(img).pixels[i], lower, upper) then img.pixels[i] else Black
  {
  }

  /**
   * With the default bounds, a pixel whose saturation is below 40 (white,
   * grey, washed out) or whose hue is below 20 fails the range test.
   */
  lemma DefaultRangeDropsPale(p: Pixel)
    requires p.c1 < 40 || p.c0 < 20
    ensures !InBounds(p, HsvLower, HsvUpper)
  {
  }

  // ---------------------------------------------------------------------
  // U2Net-P through rembg

  /** (rgb * (alpha / 255.0)).astype(uint8) on one sample: the product, truncated. */
  function ScaleSample(c: Byte, a: Byte): Byte
  {
    c * a / 255
  }

  /**
   * The alpha plane used as a soft mask: opaque pixels keep their colour,
   * transparent ones become black, and no channel ever grows.
   */
  function ScaleByAlpha(rgb: Image, alpha: Plane): (r: Image)
    requires alpha.Fits(rgb)
    ensures SameShape(r, rgb)
    ensures forall i :: 0 <= i < |rgb.pixels| && alpha.values[i] == 255 ==> r.pixels[i] == rgb.pixels[i]
    ensures forall i :: 0 <= i < |rgb.pixels| && alpha.values[i] == 0 ==> r.pixels[i] == Black
    ensures forall i :: 0 <= i < |rgb.pixels| ==>
      r.pixels[i].c0 <= rgb.pixels[i].c0 && r.pixels[i].c1 <= rgb.pixels[i].c1 && r.pixels[i].c2 <= rgb.pixels[i].c2
  {
    var r := Image(rgb.height, rgb.width,
                   seq(|rgb.pixels|, i requires 0 <= i < |rgb.pixels| =>
                     var p, a := rgb.pixels[i], alpha.values[i];
                     Pixel(ScaleSample(p.c0, a), ScaleSample(p.c1, a), ScaleSample(p.c2, a))));
    assert forall c: Byte, a: Byte {:trigger ScaleSample(c, a)} :: ScaleSample(c, a) <= c by {
      forall c: Byte, a: Byte ensures ScaleSample(c, a) <= c {
        assert c * a <= c * 255;
      }
    }
    r
  }

  /**
   * segment_u2netp: the image goes to rembg as RGB; an RGBA answer is scaled
   * by its alpha, an RGB one taken as it is, and either is converted back to
   * BGR. Any exception (rembg or torchvision missing, a failing session)
   * falls back to segment_hsv_color with its default bounds. The result
   * always has the input's shape.
   */
  function SegmentU2netp(v: Vision, img: Image): (r: Image)
    requires v.ColourSound() && v.PlaneSound() && v.RemovalSound()
    ensures SameShape(r, img)
    ensures v.removeBackground(SwapRedBlue(img)).Raise? ==> r == SegmentHsvColor(v, img, HsvLower, HsvUpper)
  {
    var rgbIn := SwapRedBlue(img);
    match v.removeBackground(rgbIn)
    case Raise(_) => SegmentHsvColor(v, img, HsvLower, HsvUpper)
    case Ok(Rgba(rgb, alpha)) => SwapRedBlue(ScaleByAlpha(rgb, alpha))
    case Ok(Rgb(out)) => SwapRedBlue(out)
  }

  /**
   * A fully opaque rembg answer gives back the colours rembg returned, in
   * BGR order; in particular if rembg returned its input unchanged, so does
   * segment_u2netp.
   */
  lemma OpaqueRemovalKeepsImage(v: Vision, img: Image)
    requires v.ColourSound() && v.PlaneSound() && v.RemovalSound()
    requires v.removeBackground(SwapRedBlue(img)).Ok?
    requires var out := v.removeBackground(SwapRedBlue(img)).value;
      out.Rgba? && out.rgb == SwapRedBlue(img) &&
      forall i :: 0 <= i < |out.alpha.values| ==> out.alpha.values[i] == 255
    ensures SegmentU2netp(v, img) == img
  {
    var out := v.removeBackground(SwapRedBlue(img)).value;
    var scaled := ScaleByAlpha(out.rgb, out.alpha);
    assert scaled.pixels == out.rgb.pixels;
    assert scaled == out.rgb;
    SwapRedBlueInvolution(img);
  }
}
