/**
 * Automatic brightness and contrast (apply_automatic_brightness_contrast):
 * a 256-bin histogram of the luma channel, its cumulative sums, two cut
 * points found by walking the cumulative sums from either end, and the
 * linear remap alpha * x + beta that sends the lower cut to 0 and the upper
 * cut to 255, applied with cv2.convertScaleAbs to the luma channel only.
 *
 * Histogram counts, the accumulator and the clip threshold are floats in the
 * source; here they are exact integers and reals.
 */
module Brightness {
  import opened Images
  import opened Outcomes
  import opened Vision

  /** Number of samples of `s` equal to `v`. */
  function Count(s: seq<Byte>, v: int): nat
  {
    if s == [] then 0 else Count(s[..|s| - 1], v) + (if s[|s| - 1] == v then 1 else 0)
  }

  /** Number of samples of `s` strictly below `n`. */
  function CountBelow(s: seq<Byte>, n: int): nat
  {
    if s == [] then 0 else CountBelow(s[..|s| - 1], n) + (if s[|s| - 1] < n then 1 else 0)
  }

  lemma {:induction false} CountBelowZero(s: seq<Byte>)
    ensures CountBelow(s, 0) == 0
  {
    if s != [] { CountBelowZero(s[..|s| - 1]); }
  }

  lemma {:induction false} CountBelowAll(s: seq<Byte>)
    ensures CountBelow(s, 256) == |s|
  {
    if s != [] { CountBelowAll(s[..|s| - 1]); }
  }

  lemma {:induction false} CountBelowStep(s: seq<Byte>, n: int)
    ensures CountBelow(s, n + 1) == CountBelow(s, n) + Count(s, n)
  {
    if s != [] { CountBelowStep(s[..|s| - 1], n); }
  }

  /** cv2.calcHist([gray], [0], None, [256], [0, 256]): bin v counts the samples equal to v. */
  function Histogram(luma: seq<Byte>): (hist: seq<nat>)
    ensures |hist| == 256
  {
    seq(256, v => Count(luma, v))
  }

  /** The sum of the first n bins of a histogram. */
  function PrefixSum(hist: seq<nat>, n: nat): nat
    requires n <= |hist|
  {
    if n == 0 then 0 else PrefixSum(hist, n - 1) + hist[n - 1]
  }

  /** The first n bins of the histogram together count the samples below n. */
  lemma {:induction false} HistogramPrefix(luma: seq<Byte>, n: nat)
    requires n <= 256
    ensures PrefixSum(Histogram(luma), n) == CountBelow(luma, n)
  {
    if n == 0 {
      CountBelowZero(luma);
    } else {
      HistogramPrefix(luma, n - 1);
      CountBelowStep(luma, n - 1);
    }
  }

  /** What the accumulator means: entry k is the number of samples whose luma is at most k. */
  function CumulativeCounts(luma: seq<Byte>): (acc: seq<nat>)
    ensures |acc| == 256
  {
    seq(256, k => CountBelow(luma, k + 1))
  }

  predicate NonDecreasing(s: seq<nat>)
  {
    forall j, k :: 0 <= j <= k < |s| ==> s[j] <= s[k]
  }

  /**
   * The accumulator loop: entry k is the sum of bins 0..k. The result has
   * one entry per bin and never decreases.
   */
  method Accumulate(hist: seq<nat>) returns (acc: seq<nat>)
    requires |hist| > 0
    ensures |acc| == |hist|
    ensures forall k :: 0 <= k < |acc| ==> acc[k] == PrefixSum(hist, k + 1)
    ensures NonDecreasing(acc)
  {
    acc := [hist[0]];
    for index := 1 to |hist|
      invariant |acc| == index
      invariant forall k :: 0 <= k < index ==> acc[k] == PrefixSum(hist, k + 1)
      invariant NonDecreasing(acc)
    {
      acc := acc + [acc[index - 1] + hist[index]];
    }
  }

  /** The accumulator of the luma histogram is the cumulative count, and its last entry is the pixel count. */
  lemma AccumulatorIsCumulative(luma: seq<Byte>, acc: seq<nat>)
    requires |acc| == 256
    requires forall k :: 0 <= k < 256 ==> acc[k] == PrefixSum(Histogram(luma), k + 1)
    ensures acc == CumulativeCounts(luma)
    ensures acc[255] == |luma|
  {
    forall k | 0 <= k < 256
      ensures acc[k] == CumulativeCounts(luma)[k]
    {
      HistogramPrefix(luma, k + 1);
    }
    CountBelowAll(luma);
  }

  // ---------------------------------------------------------------------
  // The two cut points

  /** minimum_gray: the least index whose cumulative count reaches the threshold t. */
  predicate IsLeftCut(acc: seq<nat>, t: real, m: int)
  {
    0 <= m < |acc| && acc[m] as real >= t &&
    forall j :: 0 <= j < m ==> (acc[j] as real) < t
  }

  /** maximum_gray: the greatest index whose cumulative count stays below `bound` (= total - t). */
  predicate IsRightCut(acc: seq<nat>, bound: real, m: int)
  {
    0 <= m < |acc| && (acc[m] as real) < bound &&
    forall j :: m < j < |acc| ==> acc[j] as real >= bound
  }

  lemma LeftCutUnique(acc: seq<nat>, t: real, m1: int, m2: int)
    requires IsLeftCut(acc, t, m1) && IsLeftCut(acc, t, m2)
    ensures m1 == m2
  {
  }

  lemma RightCutUnique(acc: seq<nat>, bound: real, m1: int, m2: int)
    requires IsRightCut(acc, bound, m1) && IsRightCut(acc, bound, m2)
    ensures m1 == m2
  {
  }

  /** Some index reaches t, so a least one does. */
  lemma {:induction false} LeftCutExists(acc: seq<nat>, t: real, k: int)
    requires 0 <= k < |acc| && acc[k] as real >= t
    ensures exists m :: IsLeftCut(acc, t, m)
    decreases k
  {
    if forall j :: 0 <= j < k ==> (acc[j] as real) < t {
      assert IsLeftCut(acc, t, k);
    } else {
      var j :| 0 <= j < k && acc[j] as real >= t;
      LeftCutExists(acc, t, j);
    }
  }

  /** Some index stays below `bound`, so a greatest one does. */
  lemma {:induction false} RightCutExists(acc: seq<nat>, bound: real, k: int)
    requires 0 <= k < |acc| && (acc[k] as real) < bound
    ensures exists m :: IsRightCut(acc, bound, m)
    decreases |acc| - k
  {
    if forall j :: k < j < |acc| ==> acc[j] as real >= bound {
      assert IsRightCut(acc, bound, k);
    } else {
      var j :| k < j < |acc| && (acc[j] as real) < bound;
      RightCutExists(acc, bound, j);
    }
  }

  /** The left walk's outcome: the left cut, or IndexError when the walk runs past the last bin. */
  ghost function LeftCutOf(acc: seq<nat>, t: real): (r: Try<nat>)
    ensures r.Ok? ==> IsLeftCut(acc, t, r.value)
    ensures r.Raise? ==> r.exc == IndexError && forall k :: 0 <= k < |acc| ==> (acc[k] as real) < t
  {
    if exists k :: 0 <= k < |acc| && acc[k] as real >= t then
      var k :| 0 <= k < |acc| && acc[k] as real >= t;
      LeftCutExists(acc, t, k);
      var m :| IsLeftCut(acc, t, m);
      Ok(m)
    else
      Raise(IndexError)
  }

  /** The right walk's outcome: the right cut, or IndexError when the walk runs past index -|acc|. */
  ghost function RightCutOf(acc: seq<nat>, bound: real): (r: Try<nat>)
    ensures r.Ok? ==> IsRightCut(acc, bound, r.value)
    ensures r.Raise? ==> r.exc == IndexError && forall k :: 0 <= k < |acc| ==> acc[k] as real >= bound
  {
    if exists k :: 0 <= k < |acc| && (acc[k] as real) < bound then
      var k :| 0 <= k < |acc| && (acc[k] as real) < bound;
      RightCutExists(acc, bound, k);
      var m :| IsRightCut(acc, bound, m);
      Ok(m)
    else
      Raise(IndexError)
  }

  /**
   * The left walk: `while accumulator[minimum_gray] < t: minimum_gray += 1`.
   * Reading past the last bin raises IndexError.
   */
  method LeftCut(acc: seq<nat>, t: real) returns (r: Try<nat>)
    ensures r == LeftCutOf(acc, t)
  {
    var minimumGray := 0;
    while minimumGray < |acc| && (acc[minimumGray] as real) < t
      invariant 0 <= minimumGray <= |acc|
      invariant forall j :: 0 <= j < minimumGray ==> (acc[j] as real) < t
    {
      minimumGray := minimumGray + 1;
    }
    if minimumGray == |acc| {
      return Raise(IndexError);
    }
    r := Ok(minimumGray);
    assert IsLeftCut(acc, t, minimumGray);
    LeftCutUnique(acc, t, minimumGray, LeftCutOf(acc, t).value);
  }

  /** Python's reading of index i (possibly negative) in a list of length n. */
  function PyIndex(n: nat, i: int): (k: nat)
    requires -(n as int) <= i < n
    ensures k < n
  {
    if i < 0 then n + i else i
  }

  /**
   * The right walk: `while accumulator[maximum_gray] >= bound: maximum_gray -= 1`,
   * starting from the last bin. Python reads negative indices from the end
   * of the list, so the walk does not stop at -1: it goes on through -|acc|
   * and raises IndexError only below that. It can never stop at a negative
   * index, because every entry was already seen to reach the bound.
   */
  method RightCut(acc: seq<nat>, bound: real) returns (r: Try<nat>)
    requires |acc| > 0
    ensures r == RightCutOf(acc, bound)
  {
    var n := |acc|;
    var maximumGray: int := n - 1;
    while -(n as int) <= maximumGray && acc[PyIndex(n, maximumGray)] as real >= bound
      invariant -(n as int) - 1 <= maximumGray <= n - 1
      invariant forall j :: maximumGray < j < n && 0 <= j ==> acc[j] as real >= bound
      invariant maximumGray < 0 ==> forall j :: 0 <= j < n ==> acc[j] as real >= bound
      decreases maximumGray + n + 1
    {
      maximumGray := maximumGray - 1;
    }
    if maximumGray < -(n as int) {
      return Raise(IndexError);
    }
    r := Ok(maximumGray);
    assert IsRightCut(acc, bound, maximumGray);
    RightCutUnique(acc, bound, maximumGray, RightCutOf(acc, bound).value);
  }

  /**
   * On a non-decreasing accumulator with last entry `total`, the left walk
   * stays inside the list exactly when t <= total, and the right walk exactly
   * when the first entry is below total - t.
   */
  lemma WalksStayInRange(acc: seq<nat>, t: real)
    requires |acc| > 0 && NonDecreasing(acc)
    ensures var total := acc[|acc| - 1] as real;
      (LeftCutOf(acc, t).Ok? <==> t <= total) &&
      (RightCutOf(acc, total - t).Ok? <==> (acc[0] as real) < total - t)
  {
    var last := |acc| - 1;
    var total := acc[last] as real;
    if t <= total {
      assert acc[last] as real >= t;
    } else {
      forall k | 0 <= k < |acc| ensures (acc[k] as real) < t {
        assert acc[k] <= acc[last];
      }
    }
    if (acc[0] as real) < total - t {
      assert (acc[0] as real) < total - t;
    } else {
      forall k | 0 <= k < |acc| ensures acc[k] as real >= total - t {
        assert acc[0] <= acc[k];
      }
    }
  }

  /** When both walks stay inside, minimum_gray is at most the last bin and maximum_gray below it. */
  lemma CutsBelowLastBin(acc: seq<nat>, t: real)
    requires |acc| > 0 && 0.0 <= t
    requires RightCutOf(acc, acc[|acc| - 1] as real - t).Ok?
    ensures RightCutOf(acc, acc[|acc| - 1] as real - t).value < |acc| - 1
  {
  }

  // ---------------------------------------------------------------------
  // The linear remap

  /**
   * alpha = 255 / (maximum_gray - minimum_gray), beta = -minimum_gray * alpha.
   * Division by zero when the cuts coincide; otherwise the remap sends the
   * lower cut to 0 and the upper cut to 255, and alpha is negative exactly
   * when the upper cut lies below the lower one.
   */
  function AlphaBeta(lo: int, hi: int): (r: Try<(real, real)>)
    ensures r.Raise? <==> lo == hi
    ensures r.Raise? ==> r.exc == ZeroDivisionError
    ensures r.Ok? ==>
      lo as real * r.value.0 + r.value.1 == 0.0 &&
      hi as real * r.value.0 + r.value.1 == 255.0 &&
      (r.value.0 > 0.0 <==> lo < hi) &&
      (r.value.0 < 0.0 <==> hi < lo)
  {
    if hi == lo then
      Raise(ZeroDivisionError)
    else
      var alpha := 255.0 / (hi - lo) as real;
      assert (hi - lo) as real * alpha == 255.0;
      Ok((alpha, -(lo as real) * alpha))
  }

  function Abs(x: real): real
  {
    if x < 0.0 then -x else x
  }

  /** Rounding to the nearest integer, ties to even (OpenCV's cvRound). */
  function RoundHalfEven(x: real): (n: int)
    ensures x - 0.5 <= n as real <= x + 0.5
  {
    var f := x.Floor;
    var d := x - f as real;
    if d < 0.5 then f
    else if d > 0.5 then f + 1
    else if f % 2 == 0 then f
    else f + 1
  }

  /** saturate_cast<uchar>: clamp to 0..255. */
  function Saturate(n: int): (b: Byte)
    ensures 0 <= n <= 255 ==> b == n
  {
    if n < 0 then 0 else if n > 255 then 255 else n
  }

  /** cv2.convertScaleAbs on one sample: saturate(round(|x * alpha + beta|)). */
  function ScaleAbs(x: Byte, alpha: real, beta: real): Byte
  {
    Saturate(RoundHalfEven(Abs(x as real * alpha + beta)))
  }

  /** cv2.convertScaleAbs on a plane, sample by sample. */
  function ScaleAbsPlane(p: Plane, alpha: real, beta: real): (r: Plane)
    ensures r.height == p.height && r.width == p.width && |r.values| == |p.values|
    ensures forall i :: 0 <= i < |p.values| ==> r.values[i] == ScaleAbs(p.values[i], alpha, beta)
  {
    Plane(p.height, p.width, seq(|p.values|, i requires 0 <= i < |p.values| => ScaleAbs(p.values[i], alpha, beta)))
  }

  /** The remap sends the lower cut to 0 and the upper cut to 255. */
  lemma RemapEndpoints(lo: Byte, hi: Byte)
    requires lo != hi
    ensures var (alpha, beta) := AlphaBeta(lo, hi).value;
      ScaleAbs(lo, alpha, beta) == 0 && ScaleAbs(hi, alpha, beta) == 255
  {
    var ab := AlphaBeta(lo, hi).value;
    assert lo as real * ab.0 + ab.1 == 0.0 && hi as real * ab.0 + ab.1 == 255.0;
    assert RoundHalfEven(0.0) == 0;
    assert RoundHalfEven(255.0) == 255;
    assert ScaleAbs(lo, ab.0, ab.1) == Saturate(RoundHalfEven(Abs(0.0)));
    assert ScaleAbs(hi, ab.0, ab.1) == Saturate(RoundHalfEven(Abs(255.0)));
  }

  /**
   * convertScaleAbs takes the absolute value before saturating, so a sample
   * below the lower cut is reflected instead of clipped to 0: with cuts 10
   * and 20 a black sample becomes white.
   */
  lemma DarkSampleIsReflected()
    ensures var (alpha, beta) := AlphaBeta(10, 20).value;
      alpha == 25.5 && beta == -255.0 && ScaleAbs(0, alpha, beta) == 255
  {
    var (alpha, beta) := AlphaBeta(10, 20).value;
    assert alpha == 25.5;
    assert Abs(0.0 * alpha + beta) == 255.0;
    assert RoundHalfEven(255.0) == 255;
  }

  // ---------------------------------------------------------------------
  // The whole corrector

  /**
   * The clip threshold: the clip percentage of the pixel count, halved
   * (half is clipped at each end of the histogram).
   */
  function ClipThreshold(clipHistPercent: real, total: nat): real
  {
    clipHistPercent * (total as real / 100.0) / 2.0
  }

  /** The two cut points of a luma plane for a clip percentage, or the walk's IndexError. */
  ghost function CutPoints(luma: seq<Byte>, clipHistPercent: real): (r: Try<(nat, nat)>)
    ensures r.Raise? ==> r.exc == IndexError
  {
    var acc := CumulativeCounts(luma);
    var t := ClipThreshold(clipHistPercent, |luma|);
    match LeftCutOf(acc, t)
    case Raise(e) => Raise(e)
    case Ok(lo) =>
      match RightCutOf(acc, |luma| as real - t)
      case Raise(e) => Raise(e)
      case Ok(hi) => Ok((lo, hi))
  }

  /**
   * The remap of the luma channel between the cuts `lo` and `hi`: alpha and
   * beta (or their ZeroDivisionError), then convertScaleAbs written back into
   * channel 0 of the YUV image. The other two channels are untouched.
   */
  function RemapLuma(yuv: Image, lo: nat, hi: nat): (r: Try<Image>)
    ensures r.Raise? <==> lo == hi
    ensures r.Raise? ==> r.exc == ZeroDivisionError
    ensures r.Ok? ==>
      SameShape(r.value, yuv) && Split(r.value).1 == Split(yuv).1 && Split(r.value).2 == Split(yuv).2
    ensures r.Ok? ==> var (alpha, beta) := AlphaBeta(lo, hi).value;
      forall i :: 0 <= i < |yuv.pixels| ==>
        Split(r.value).0.values[i] == ScaleAbs(yuv.pixels[i].c0, alpha, beta)
  {
    match AlphaBeta(lo, hi)
    case Raise(e) => Raise(e)
    case Ok((alpha, beta)) => Ok(WithChannel0(yuv, ScaleAbsPlane(Split(yuv).0, alpha, beta)))
  }

  /** What cv2.cvtColor raises (cv2.error) when handed an empty array. */
  const EmptyImageError: Exception := OtherError("(-215:Assertion failed) !_src.empty() in function 'cvtColor'")

  /**
   * What apply_automatic_brightness_contrast computes, as a function of its
   * input. An empty (or malformed) image makes the first colour conversion
   * raise; on a valid image only the walks' IndexError and the division's
   * ZeroDivisionError can escape.
   */
  ghost function AutoBrightnessContrastSpec(v: Vision, img: Image, clipHistPercent: real): (r: Try<Image>)
    ensures !img.Valid() ==> r == Raise(EmptyImageError)
    ensures r.Raise? && img.Valid() ==> r.exc == IndexError || r.exc == ZeroDivisionError
  {
    if !img.Valid() then Raise(EmptyImageError)
    else
      var yuv := v.bgrToYuv(img);
      match CutPoints(Split(yuv).0.values, clipHistPercent)
      case Raise(e) => Raise(e)
      case Ok(cuts) =>
        match RemapLuma(yuv, cuts.0, cuts.1)
        case Raise(e) => Raise(e)
        case Ok(remapped) => Ok(v.yuvToBgr(remapped))
  }

  /**
   * The accumulator, the clip threshold and the two walks of
   * apply_automatic_brightness_contrast, as one step.
   */
  method FindCutPoints(luma: seq<Byte>, clipHistPercent: real) returns (r: Try<(nat, nat)>)
    requires |luma| > 0
    ensures r == CutPoints(luma, clipHistPercent)
  {
    var hist := Histogram(luma);
    var accumulator := Accumulate(hist);
    AccumulatorIsCumulative(luma, accumulator);
    var maximum := accumulator[|accumulator| - 1];
    var clip := ClipThreshold(clipHistPercent, maximum);
    var lo := LeftCut(accumulator, clip);
    if lo.Raise? {
      return Raise(lo.exc);
    }
    var hi := RightCut(accumulator, maximum as real - clip);
    if hi.Raise? {
      return Raise(hi.exc);
    }
    r := Ok((lo.value, hi.value));
  }

  /**
   * apply_automatic_brightness_contrast: histogram, accumulator, the two
   * walks, alpha and beta, then the luma channel is overwritten with its
   * remapped values and the image converted back to BGR. The walks and the
   * division raise as the source does.
   */
  method ApplyAutomaticBrightnessContrast(v: Vision, img: Image, clipHistPercent: real) returns (r: Try<Image>)
    requires v.ColourSound()
    ensures r == AutoBrightnessContrastSpec(v, img, clipHistPercent)
    ensures r.Ok? ==> r.value.Valid() && SameShape(r.value, img)
  {
    if !img.Valid() {
      return Raise(EmptyImageError);
    }
    var yuv := v.bgrToYuv(img);
    SameShapeValid(yuv, img);
    ValidNonEmpty(yuv);
    var cuts := FindCutPoints(Split(yuv).0.values, clipHistPercent);
    if cuts.Raise? {
      return Raise(cuts.exc);
    }
    var remapped := RemapLuma(yuv, cuts.value.0, cuts.value.1);
    if remapped.Raise? {
      return Raise(remapped.exc);
    }
    r := Ok(v.yuvToBgr(remapped.value));
    SameShapeValid(r.value, img);
  }

  // ---------------------------------------------------------------------
  // Degenerate histograms

  lemma {:induction false} CountBelowFlat(s: seq<Byte>, v: Byte, n: int)
    requires forall i :: 0 <= i < |s| ==> s[i] == v
    ensures CountBelow(s, n) == if v < n then |s| else 0
  {
    if s != [] { CountBelowFlat(s[..|s| - 1], v, n); }
  }

  /**
   * A single-valued luma plane with the default 1% clip: at value 0 the right
   * walk raises IndexError; at any other value v the cuts are v and v - 1, so
   * alpha is -255 and beta 255 * v: nothing divides by zero, but every
   * sample is remapped to |-255 v + 255 v| = 0, so the luma turns black.
   */
  lemma FlatLuma(luma: seq<Byte>, v: Byte)
    requires |luma| > 0
    requires forall i :: 0 <= i < |luma| ==> luma[i] == v
    ensures v == 0 ==> CutPoints(luma, 1.0) == Raise(IndexError)
    ensures v > 0 ==> CutPoints(luma, 1.0) == Ok((v, v - 1)) &&
                      AlphaBeta(v, v - 1) == Ok((-255.0, 255.0 * v as real)) &&
                      ScaleAbs(v, -255.0, 255.0 * v as real) == 0
  {
    var acc := CumulativeCounts(luma);
    var total := |luma| as real;
    var t := 1.0 * (total / 100.0) / 2.0;
    forall k | 0 <= k < 256
      ensures acc[k] == if k < v then 0 else |luma|
    {
      CountBelowFlat(luma, v, k + 1);
    }
    assert IsLeftCut(acc, t, v);
    LeftCutUnique(acc, t, v, LeftCutOf(acc, t).value);
    if v == 0 {
      assert RightCutOf(acc, total - t).Raise?;
    } else {
      assert IsRightCut(acc, total - t, v - 1);
      RightCutUnique(acc, total - t, v - 1, RightCutOf(acc, total - t).value);
      FlatSampleTurnsBlack(v);
    }
  }

  /** The sample v under alpha = -255, beta = 255 v lands on |0| = 0. */
  lemma FlatSampleTurnsBlack(v: Byte)
    ensures ScaleAbs(v, -255.0, 255.0 * v as real) == 0
  {
    assert v as real * -255.0 + 255.0 * v as real == 0.0;
    assert RoundHalfEven(Abs(0.0)) == 0;
  }

  /**
   * Two pixels of adjacent luma 5 and 6 with the default 1% clip: both cuts
   * fall on bin 5 and alpha divides by zero.
   */
  lemma AdjacentPairDividesByZero()
    ensures CutPoints([5, 6], 1.0) == Ok((5, 5))
    ensures AlphaBeta(5, 5) == Raise(ZeroDivisionError)
  {
    var luma: seq<Byte> := [5, 6];
    var acc := CumulativeCounts(luma);
    var t := 1.0 * (2.0 / 100.0) / 2.0;
    assert luma[..1] == [5];
    assert luma[..1][..0] == [];
    forall k | 0 <= k < 256
      ensures acc[k] == if k < 5 then 0 else if k == 5 then 1 else 2
    {
      assert acc[k] == CountBelow(luma, k + 1);
      assert CountBelow([5], k + 1) == if k < 5 then 0 else 1;
    }
    assert IsLeftCut(acc, t, 5);
    LeftCutUnique(acc, t, 5, LeftCutOf(acc, t).value);
    assert IsRightCut(acc, 2.0 - t, 5);
    RightCutUnique(acc, 2.0 - t, 5, RightCutOf(acc, 2.0 - t).value);
  }

  lemma {:induction false} CountBelowTwoValued(s: seq<Byte>, a: Byte, n: int)
    requires forall i :: 0 <= i < |s| ==> s[i] == a || s[i] == a + 1
    ensures CountBelow(s, n) == if n <= a then 0 else if n == a + 1 then Count(s, a) else |s|
  {
    if s != [] { CountBelowTwoValued(s[..|s| - 1], a, n); }
  }

  /**
   * A luma plane holding only the adjacent values a and a + 1, with the
   * default 1% clip and t = half a percent of the pixel count. The left
   * walk stops at a when the count at a reaches t, else at a + 1; the right
   * walk stops at a when the count at a + 1 exceeds t, else at a - 1, which
   * for a = 0 means it runs off the list and raises IndexError. The cuts
   * coincide, and alpha divides by zero, exactly when both counts clear t.
   */
  lemma AdjacentPairCuts(luma: seq<Byte>, a: Byte)
    requires |luma| > 0 && a < 255
    requires forall i :: 0 <= i < |luma| ==> luma[i] == a || luma[i] == a + 1
    ensures var t := ClipThreshold(1.0, |luma|);
      var p := Count(luma, a);
      var q := |luma| - p;
      CutPoints(luma, 1.0) ==
        if q as real <= t && a == 0 then Raise(IndexError)
        else Ok((if p as real >= t then a else a + 1, if q as real > t then a else a - 1))
    ensures var t := ClipThreshold(1.0, |luma|);
      var p := Count(luma, a);
      var q := |luma| - p;
      (CutPoints(luma, 1.0).Ok? && CutPoints(luma, 1.0).value.0 == CutPoints(luma, 1.0).value.1) <==>
        (p as real >= t && q as real > t)
  {
    var acc := CumulativeCounts(luma);
    var n := |luma|;
    var t := ClipThreshold(1.0, n);
    var p := Count(luma, a);
    var q := n - p;
    forall k | 0 <= k < 256
      ensures acc[k] == if k < a then 0 else if k == a then p else n
    {
      CountBelowTwoValued(luma, a, k + 1);
    }
    var lo: nat := if p as real >= t then a else a + 1;
    assert IsLeftCut(acc, t, lo);
    LeftCutUnique(acc, t, lo, LeftCutOf(acc, t).value);
    if q as real > t {
      assert IsRightCut(acc, n as real - t, a);
      RightCutUnique(acc, n as real - t, a, RightCutOf(acc, n as real - t).value);
    } else if a > 0 {
      assert IsRightCut(acc, n as real - t, a - 1);
      RightCutUnique(acc, n as real - t, a - 1, RightCutOf(acc, n as real - t).value);
    } else {
      assert RightCutOf(acc, n as real - t).Raise?;
    }
  }
}
