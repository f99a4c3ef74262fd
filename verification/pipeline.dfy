/**
 * auto_segment: every image is resized to the 224 x 224 model input, run
 * through the segmenter its method name selects, and then, unless switched
 * off, through automatic brightness/contrast followed by CLAHE.
 */
module Pipeline {
  import opened Images
  import opened Outcomes
  import opened Vision
  import opened Brightness
  import opened Segmentation

  /** The method names the API accepts. */
  const ValidSegmentationMethods: seq<string> := ["hsv", "grabcut", "adaptive", "u2netp", "none"]

  /** Side of the square image every method works on. */
  const InputSize: nat := 224

  /** The default arguments of the segmenters as auto_segment calls them. */
  const GrabCutIterations: nat := 5
  const AdaptiveKernelSize: nat := 5
  const DefaultClipHistPercent: real := 1.0

  /**
   * The if/elif chain of auto_segment: the four segmenter names select their
   * segmenter; any other string, "none" included, leaves the image as it is.
   */
  function Dispatch(v: Vision, methodName: string, img: Image): (r: Image)
    requires v.Sound()
    ensures SameShape(r, img)
  {
    if methodName == "grabcut" then SegmentGrabCut(v, img, GrabCutIterations)
    else if methodName == "adaptive" then SegmentAdaptiveThreshold(v, img, AdaptiveKernelSize)
    else if methodName == "hsv" then SegmentHsvColor(v, img, HsvLower, HsvUpper)
    else if methodName == "u2netp" then SegmentU2netp(v, img)
    else img
  }

  /** "none", and every name outside the accepted list, segments nothing. */
  lemma UnsegmentedNames(v: Vision, methodName: string, img: Image)
    requires v.Sound()
    requires methodName == "none" || methodName !in ValidSegmentationMethods
    ensures Dispatch(v, methodName, img) == img
  {
  }

  /** GrabCut, adaptive threshold and HSV only keep or blacken pixels. */
  lemma MaskingMethods(v: Vision, methodName: string, img: Image)
    requires v.Sound()
    requires methodName in ["grabcut", "adaptive", "hsv"]
    ensures MaskedFrom(Dispatch(v, methodName, img), img)
  {
  }

  /** What auto_segment returns for a resized, segmented image, or the exception it raises. */
  ghost function AutoSegmentSpec(v: Vision, img: Image, methodName: string, applyBrightContClahe: bool): Try<Image>
    requires v.Sound()
  {
    match v.resize(img, InputSize, InputSize)
    case Raise(e) => Raise(e)
    case Ok(resized) =>
      var result := Dispatch(v, methodName, resized);
      if !applyBrightContClahe then Ok(result)
      else
        match AutoBrightnessContrastSpec(v, result, DefaultClipHistPercent)
        case Raise(e) => Raise(e)
        case Ok(corrected) => Ok(ApplyClahe(v, corrected, DefaultClipLimit, DefaultTileGrid, DefaultTileGrid))
  }

  /**
   * auto_segment. An empty (or malformed) input makes cv2.resize raise
   * before anything else happens. Otherwise the result is a valid 224 x 224
   * image; without the enhancement step it is the segmented image itself
   * and nothing can raise; with it, only the brightness corrector's
   * IndexError or ZeroDivisionError can escape.
   */
  method AutoSegment(v: Vision, img: Image, methodName: string, applyBrightContClahe: bool) returns (r: Try<Image>)
    requires v.Sound()
    ensures r == AutoSegmentSpec(v, img, methodName, applyBrightContClahe)
    ensures r.Ok? ==> r.value.Valid() && r.value.height == InputSize && r.value.width == InputSize
    ensures !img.Valid() ==> r.Raise? && r.exc.OtherError?
    ensures !applyBrightContClahe ==> (r.Ok? <==> img.Valid())
    ensures r.Raise? && img.Valid() ==> r.exc == IndexError || r.exc == ZeroDivisionError
  {
    var scaled := v.resize(img, InputSize, InputSize);
    if scaled.Raise? {
      return Raise(scaled.exc);
    }
    var resized := scaled.value;
    var result := Dispatch(v, methodName, resized);
    SameShapeValid(result, resized);
    if !applyBrightContClahe {
      return Ok(result);
    }
    var corrected := ApplyAutomaticBrightnessContrast(v, result, DefaultClipHistPercent);
    if corrected.Raise? {
      return Raise(corrected.exc);
    }
    r := Ok(ApplyClahe(v, corrected.value, DefaultClipLimit, DefaultTileGrid, DefaultTileGrid));
  }
}
