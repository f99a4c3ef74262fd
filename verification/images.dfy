/**
 * Dense 8-bit images as the segmentation pipeline sees them: three-channel
 * images (in whatever colour space the last conversion produced) and
 * single-channel planes (grey levels, masks, label maps), stored row-major.
 */
module Images {

  /** One unsigned 8-bit sample. */
  type Byte = x: int | 0 <= x < 256

  datatype Pixel = Pixel(c0: Byte, c1: Byte, c2: Byte)

  const Black: Pixel := Pixel(0, 0, 0)

  /** A height x width image with three 8-bit channels per pixel. */
  datatype Image = Image(height: nat, width: nat, pixels: seq<Pixel>) {
    predicate Valid()
    {
      height > 0 && width > 0 && |pixels| == height * width
    }
  }

  /** A valid image has at least one pixel. */
  lemma ValidNonEmpty(img: Image)
    requires img.Valid()
    ensures |img.pixels| > 0
  {
    assert img.height * img.width >= img.width;
  }

  /** A height x width single-channel 8-bit array. */
  datatype Plane = Plane(height: nat, width: nat, values: seq<Byte>) {
    predicate Valid()
    {
      |values| == height * width
    }

    /** The plane has the height, width and pixel count of `img`. */
    predicate Fits(img: Image)
    {
      height == img.height && width == img.width && |values| == |img.pixels|
    }
  }

  predicate SameShape(a: Image, b: Image)
  {
    a.height == b.height && a.width == b.width && |a.pixels| == |b.pixels|
  }

  /** An image of the shape of a valid image is valid. */
  lemma SameShapeValid(a: Image, b: Image)
    requires SameShape(a, b) && b.Valid()
    ensures a.Valid()
  {
  }

  /** Every pixel of `out` is either the pixel of `img` at the same place or black. */
  predicate MaskedFrom(out: Image, img: Image)
  {
    SameShape(out, img) &&
    forall i :: 0 <= i < |out.pixels| ==> out.pixels[i] == img.pixels[i] || out.pixels[i] == Black
  }

  /** cv2.split: the three channels of an image as planes. */
  function Split(img: Image): (Plane, Plane, Plane)
  {
    (Plane(img.height, img.width, seq(|img.pixels|, i requires 0 <= i < |img.pixels| => img.pixels[i].c0)),
     Plane(img.height, img.width, seq(|img.pixels|, i requires 0 <= i < |img.pixels| => img.pixels[i].c1)),
     Plane(img.height, img.width, seq(|img.pixels|, i requires 0 <= i < |img.pixels| => img.pixels[i].c2)))
  }

  /** cv2.merge: three planes of one shape as the channels of an image. */
  function Merge(a: Plane, b: Plane, c: Plane): (img: Image)
    requires |a.values| == |b.values| == |c.values|
    requires a.height == b.height == c.height && a.width == b.width == c.width
    ensures a.Fits(img) && b.Fits(img) && c.Fits(img)
  {
    Image(a.height, a.width,
          seq(|a.values|, i requires 0 <= i < |a.values| => Pixel(a.values[i], b.values[i], c.values[i])))
  }

  /** Splitting and merging back gives the image unchanged. */
  lemma MergeSplit(img: Image)
    ensures var (a, b, c) := Split(img); Merge(a, b, c) == img
  {
    var (a, b, c) := Split(img);
    var m := Merge(a, b, c);
    assert m.pixels == img.pixels;
  }

  /** Merging and splitting again gives the three planes unchanged. */
  lemma SplitMerge(a: Plane, b: Plane, c: Plane)
    requires |a.values| == |b.values| == |c.values|
    requires a.height == b.height == c.height && a.width == b.width == c.width
    ensures Split(Merge(a, b, c)) == (a, b, c)
  {
    var (x, y, z) := Split(Merge(a, b, c));
    assert x.values == a.values;
    assert y.values == b.values;
    assert z.values == c.values;
  }

  /** The image with its first channel replaced by `p` (numpy's `img[:, :, 0] = p`). */
  function WithChannel0(img: Image, p: Plane): (r: Image)
    requires p.Fits(img)
    ensures SameShape(r, img)
    ensures Split(r).0 == p
    ensures Split(r).1 == Split(img).1 && Split(r).2 == Split(img).2
  {
    var (_, b, c) := Split(img);
    var r := Merge(p, b, c);
    SplitMerge(p, b, c);
    r
  }

  /** The BGR <-> RGB conversion of OpenCV: swap the first and last channel. */
  function SwapRedBlue(img: Image): (r: Image)
    ensures SameShape(r, img)
  {
    Image(img.height, img.width,
          seq(|img.pixels|, i requires 0 <= i < |img.pixels| =>
            Pixel(img.pixels[i].c2, img.pixels[i].c1, img.pixels[i].c0)))
  }

  /** Converting BGR to RGB and back is the identity. */
  lemma SwapRedBlueInvolution(img: Image)
    ensures SwapRedBlue(SwapRedBlue(img)) == img
  {
    assert SwapRedBlue(SwapRedBlue(img)).pixels == img.pixels;
  }

  /**
   * cv2.bitwise_and(img, img, mask=mask): a pixel whose mask value is nonzero
   * keeps its value (x & x == x), every other pixel becomes black.
   */
  function ApplyMask(img: Image, mask: Plane): (r: Image)
    requires mask.Fits(img)
    ensures MaskedFrom(r, img)
    ensures forall i :: 0 <= i < |img.pixels| && mask.values[i] != 0 ==> r.pixels[i] == img.pixels[i]
    ensures forall i :: 0 <= i < |img.pixels| && mask.values[i] == 0 ==> r.pixels[i] == Black
  {
    Image(img.height, img.width,
          seq(|img.pixels|, i requires 0 <= i < |img.pixels| =>
            if mask.values[i] != 0 then img.pixels[i] else Black))
  }

  /** Masking twice with the same mask is the same as masking once. */
  lemma ApplyMaskIdempotent(img: Image, mask: Plane)
    requires mask.Fits(img)
    ensures ApplyMask(ApplyMask(img, mask), mask) == ApplyMask(img, mask)
  {
    var once := ApplyMask(img, mask);
    assert ApplyMask(once, mask).pixels == once.pixels;
  }

  /** numpy's uint8 product of one sample with a mask value (wraps modulo 256). */
  function MulByte(x: Byte, m: Byte): Byte
  {
    (x * m) % 256
  }

  /** `img * mask[:, :, np.newaxis]` on uint8 arrays: every channel times the mask value. */
  function MultiplyMask(img: Image, mask: Plane): (r: Image)
    requires mask.Fits(img)
    ensures SameShape(r, img)
  {
    Image(img.height, img.width,
          seq(|img.pixels|, i requires 0 <= i < |img.pixels| =>
            var p, m := img.pixels[i], mask.values[i];
            Pixel(MulByte(p.c0, m), MulByte(p.c1, m), MulByte(p.c2, m))))
  }

  /** Multiplying by a 0/1 mask is the same as masking with it: nothing wraps. */
  lemma MultiplyBinaryMask(img: Image, mask: Plane)
    requires mask.Fits(img)
    requires forall i :: 0 <= i < |mask.values| ==> mask.values[i] == 0 || mask.values[i] == 1
    ensures MultiplyMask(img, mask) == ApplyMask(img, mask)
  {
    var a, b := MultiplyMask(img, mask), ApplyMask(img, mask);
    forall i | 0 <= i < |img.pixels|
      ensures a.pixels[i] == b.pixels[i]
    {
      var p := img.pixels[i];
      if mask.values[i] == 1 {
        assert MulByte(p.c0, 1) == p.c0 && MulByte(p.c1, 1) == p.c1 && MulByte(p.c2, 1) == p.c2;
      }
    }
    assert a.pixels == b.pixels;
  }
}
