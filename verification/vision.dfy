/**
 * The image-processing library the segmentation pipeline calls (OpenCV and
 * the rembg background remover). Its algorithms are not part of this model:
 * each call is an arbitrary total function held in a `Vision` record, and the
 * `...Sound()` predicates state the only facts the pipeline relies on, namely
 * that results have the shape of their inputs.
 */
module Vision {
  import opened Images
  import opened Outcomes

  /** A rectangle (x, y, width, height) in pixel coordinates. */
  datatype Rect = Rect(x: int, y: int, width: int, height: int)

  /** The outline of one connected region, as found by cv2.findContours. */
  datatype Contour = Contour(points: seq<(int, int)>)

  /** What rembg's `remove` hands back: RGB colour plus an alpha plane, or RGB colour only. */
  datatype RemovalOutput = Rgba(rgb: Image, alpha: Plane) | Rgb(image: Image) {
    /** The colour image (and alpha plane) have the shape of `img`. */
    predicate Fits(img: Image)
    {
      match this
      case Rgba(rgb, alpha) => SameShape(rgb, img) && alpha.Fits(rgb)
      case Rgb(out) => SameShape(out, img)
    }
  }

  datatype Vision = Vision(
    /** cv2.resize(img, (width, height)), or the cv2.error it raises */
    resize: (Image, nat, nat) -> Try<Image>,
    /** cv2.cvtColor with COLOR_BGR2LAB, COLOR_LAB2BGR, COLOR_BGR2YUV, COLOR_YUV2BGR, COLOR_BGR2HSV */
    bgrToLab: Image -> Image,
    labToBgr: Image -> Image,
    bgrToYuv: Image -> Image,
    yuvToBgr: Image -> Image,
    bgrToHsv: Image -> Image,
    /** cv2.cvtColor with COLOR_BGR2GRAY */
    bgrToGray: Image -> Plane,
    /** cv2.createCLAHE(clipLimit, (tilesX, tilesY)).apply(plane) */
    clahe: (Plane, real, nat, nat) -> Plane,
    /** cv2.GaussianBlur(plane, (k, k), 0) */
    gaussianBlur: (Plane, nat) -> Plane,
    /** cv2.adaptiveThreshold(plane, 255, ADAPTIVE_THRESH_GAUSSIAN_C, THRESH_BINARY_INV, 11, 2) */
    adaptiveThreshold: Plane -> Plane,
    /** cv2.morphologyEx with MORPH_CLOSE / MORPH_OPEN and a k x k square kernel */
    morphClose: (Plane, nat) -> Plane,
    morphOpen: (Plane, nat) -> Plane,
    /** cv2.findContours(plane, RETR_EXTERNAL, CHAIN_APPROX_SIMPLE), contours only */
    findContours: Plane -> seq<Contour>,
    /** cv2.contourArea */
    contourArea: Contour -> real,
    /** cv2.drawContours(np.zeros_like(p), [c], -1, 255, -1): the filled contour on a blank plane shaped like p */
    fillContour: (Plane, Contour) -> Plane,
    /** cv2.grabCut(img, mask, rect, ..., iterations, GC_INIT_WITH_RECT): the resulting label map */
    grabCut: (Image, Rect, nat) -> Plane,
    /** rembg.remove(img, session=new_session("u2netp")), or the exception it raises */
    removeBackground: Image -> Try<RemovalOutput>
  ) {

    /**
     * cv2.resize returns an image of exactly the requested size when given
     * a well-formed, non-empty image, and raises cv2.error (its
     * `!ssize.empty()` assertion) otherwise.
     */
    ghost predicate ResizeSound()
    {
      forall img: Image, w: nat, h: nat ::
        w > 0 && h > 0 ==>
          (resize(img, w, h).Ok? <==> img.Valid()) &&
          (resize(img, w, h).Raise? ==> resize(img, w, h).exc.OtherError?) &&
          (resize(img, w, h).Ok? ==>
            resize(img, w, h).value.Valid() && resize(img, w, h).value.height == h &&
            resize(img, w, h).value.width == w)
    }

    /** Colour conversions keep the height, the width and the pixel count. */
    ghost predicate ColourSound()
    {
      (forall img: Image :: SameShape(bgrToLab(img), img)) &&
      (forall img: Image :: SameShape(labToBgr(img), img)) &&
      (forall img: Image :: SameShape(bgrToYuv(img), img)) &&
      (forall img: Image :: SameShape(yuvToBgr(img), img)) &&
      (forall img: Image :: SameShape(bgrToHsv(img), img)) &&
      (forall img: Image :: bgrToGray(img).Fits(img))
    }

    /** Single-channel filters keep the height and width of their input plane. */
    ghost predicate PlaneSound()
    {
      (forall p: Plane, c: real, tx: nat, ty: nat :: SameDims(clahe(p, c, tx, ty), p)) &&
      (forall p: Plane, k: nat :: SameDims(gaussianBlur(p, k), p)) &&
      (forall p: Plane :: SameDims(adaptiveThreshold(p), p)) &&
      (forall p: Plane, k: nat :: SameDims(morphClose(p, k), p)) &&
      (forall p: Plane, k: nat :: SameDims(morphOpen(p, k), p))
    }

    /** A contour is drawn on a canvas shaped like the given plane; GrabCut labels every pixel. */
    ghost predicate MaskSound()
    {
      (forall p: Plane, c: Contour :: SameDims(fillContour(p, c), p)) &&
      (forall img: Image, r: Rect, n: nat :: grabCut(img, r, n).Fits(img))
    }

    /** The background remover answers with an image (and alpha plane) of its input's shape. */
    ghost predicate RemovalSound()
    {
      forall img: Image :: removeBackground(img).Ok? ==> removeBackground(img).value.Fits(img)
    }

    ghost predicate Sound()
    {
      ResizeSound() && ColourSound() && PlaneSound() && MaskSound() && RemovalSound()
    }
  }

  predicate SameDims(p: Plane, q: Plane)
  {
    p.height == q.height && p.width == q.width && |p.values| == |q.values|
  }
}
