/*
 * bob/rppg/chrom/extract_utils.py: the colour reducers of the CHROM
 * algorithm (de Haan and Jeanne, 2013): the mean colour of the skin pixels,
 * the grey-level difference between consecutive frames, the choice of the
 * most stable run of frames, and the projection onto the chrominance plane.
 *
 * rgb_to_gray is a parameter; its result is a grid of uint8 grey levels.
 */
module ChromUtils {
  import opened Numerics
  import opened BaseUtils

  /** A mean colour. */
  datatype Rgb = Rgb(r: real, g: real, b: real)

  /** m times the number of selected pixels is the sum of channel c over them: m is their mean. */
  ghost predicate MeanOver(m: real, image: Image, mask: Mask, c: nat)
    requires Fits(image, mask) && c < 3
  {
    m * CountTrue(mask) as real == Sum(Reals(Select(image[c], mask)))
  }

  /** numpy.mean(image[c, mask]): the mean of channel c over the selected pixels, NaN (None) when there are none. */
  function ChannelMean(image: Image, mask: Mask, c: nat): (m: Option<real>)
    requires Fits(image, mask) && c < 3
    ensures m.None? <==> CountTrue(mask) == 0
    ensures m.Some? ==> MeanOver(m.value, image, mask, c)
  {
    SelectCount(image[c], mask);
    Mean(Reals(Select(image[c], mask)))
  }

  /** compute_mean_rgb: the mean of each channel over the masked pixels (extract_utils.py:51-55). */
  function MeanRgb(image: Image, mask: Mask): (r: Option<Rgb>)
    requires Fits(image, mask)
    ensures r.None? <==> CountTrue(mask) == 0
    ensures r.Some? ==> MeanOver(r.value.r, image, mask, 0) && MeanOver(r.value.g, image, mask, 1) && MeanOver(r.value.b, image, mask, 2)
  {
    var r, g, b := ChannelMean(image, mask, 0), ChannelMean(image, mask, 1), ChannelMean(image, mask, 2);
    if r.None? || g.None? || b.None? then None
    else Some(Rgb(r.value, g.value, b.value))
  }

  /** Pixels outside the mask have no effect on the mean colour. */
  lemma MeanRgbIgnoresUnmasked(a: Image, b: Image, mask: Mask)
    requires Fits(a, mask) && Fits(b, mask)
    requires forall c, i, k :: 0 <= c < 3 && 0 <= i < |mask| && 0 <= k < |mask[i]| && mask[i][k] ==> a[c][i][k] == b[c][i][k]
    ensures MeanRgb(a, mask) == MeanRgb(b, mask)
  {
    forall c | 0 <= c < 3 ensures Select(a[c], mask) == Select(b[c], mask) {
      SelectAgree(a[c], b[c], mask);
    }
  }

  /** A channel that has value v on every masked pixel has mean v there. */
  lemma ChannelMeanOfUniform(image: Image, mask: Mask, c: nat, v: int)
    requires Fits(image, mask) && c < 3 && CountTrue(mask) > 0
    requires forall i, k :: 0 <= i < |mask| && 0 <= k < |mask[i]| && mask[i][k] ==> image[c][i][k] == v
    ensures ChannelMean(image, mask, c) == Some(v as real)
  {
    var flat := seq(|mask|, i requires 0 <= i < |mask| => seq(|mask[i]|, _ => v));
    SelectAgree(image[c], flat, mask);
    SelectConstant(flat, mask, v);
    SelectCount(image[c], mask);
    MeanConstant(Reals(Select(image[c], mask)), v as real);
  }

  /** The mean-colour test: channels uniform on the mask give exactly those values, whatever lies outside. */
  lemma MeanRgbOfUniform(image: Image, mask: Mask, r: int, g: int, b: int)
    requires Fits(image, mask) && CountTrue(mask) > 0
    requires forall i, k :: 0 <= i < |mask| && 0 <= k < |mask[i]| && mask[i][k] ==>
      image[0][i][k] == r && image[1][i][k] == g && image[2][i][k] == b
    ensures MeanRgb(image, mask) == Some(Rgb(r as real, g as real, b as real))
  {
    ChannelMeanOfUniform(image, mask, 0, r);
    ChannelMeanOfUniform(image, mask, 1, g);
    ChannelMeanOfUniform(image, mask, 2, b);
  }

  // ---------------------------------------------------------------------
  // compute_gray_diff (extract_utils.py:58-79)

  /** bob.ip.color.rgb_to_gray: a grid of grey levels in 0..255, one per pixel. */
  type ToGray = Image -> seq<seq<int>>

  /** A per-pixel difference of two grey levels. */
  type PixelDiff = (int, int) -> int

  /** numpy's `prevg - currg` on uint8 arrays wraps modulo 256, and absolute() of a uint8 is itself. */
  function WrappedDiff(p: int, q: int): (d: int)
    ensures 0 <= d < 256
    ensures 0 <= q <= p ==> d == p - q || p - q >= 256
  {
    (p - q) % 256
  }

  /** |p - q|, the absolute grey-level difference the docstring describes. */
  function AbsDiff(p: int, q: int): (d: int)
    ensures d >= 0 && (d == p - q || d == q - p)
  {
    if p >= q then p - q else q - p
  }

  function RowDiff(p: seq<int>, q: seq<int>, f: PixelDiff): real
    requires |p| == |q|
    decreases |p|
  {
    if |p| == 0 then 0.0 else RowDiff(p[..|p| - 1], q[..|q| - 1], f) + f(p[|p| - 1], q[|q| - 1]) as real
  }

  /** numpy.sum of f over two grids of the same shape. */
  function GridDiff(p: seq<seq<int>>, q: seq<seq<int>>, f: PixelDiff): real
    requires |p| == |q| && forall i :: 0 <= i < |p| ==> |p[i]| == |q[i]|
    decreases |p|
  {
    if |p| == 0 then 0.0 else GridDiff(p[..|p| - 1], q[..|q| - 1], f) + RowDiff(p[|p| - 1], q[|q| - 1], f)
  }

  predicate SameShape(p: seq<seq<int>>, q: seq<seq<int>>)
  {
    |p| == |q| && forall i :: 0 <= i < |p| ==> |p[i]| == |q[i]|
  }

  /** compute_gray_diff as written: the per-pixel difference is taken on uint8 and wraps. */
  function GrayDiffAsWritten(previous: Image, current: Image, gray: ToGray): real
    requires SameShape(gray(previous), gray(current))
  {
    GridDiff(gray(previous), gray(current), WrappedDiff)
  }

  /** compute_gray_diff as its docstring describes it: the sum of absolute grey-level differences. */
  function GrayDiff(previous: Image, current: Image, gray: ToGray): real
    requires SameShape(gray(previous), gray(current))
  {
    GridDiff(gray(previous), gray(current), AbsDiff)
  }

  /** A difference that is zero on equal levels sums to zero on equal grids. */
  lemma {:induction false} RowDiffOfSame(p: seq<int>, f: PixelDiff)
    requires forall v :: f(v, v) == 0
    ensures RowDiff(p, p, f) == 0.0
    decreases |p|
  {
    if |p| > 0 {
      RowDiffOfSame(p[..|p| - 1], f);
    }
  }

  lemma {:induction false} GridDiffOfSame(p: seq<seq<int>>, f: PixelDiff)
    requires forall v :: f(v, v) == 0
    ensures GridDiff(p, p, f) == 0.0
    decreases |p|
  {
    if |p| > 0 {
      GridDiffOfSame(p[..|p| - 1], f);
      RowDiffOfSame(p[|p| - 1], f);
    }
  }

  /** Two constant rows of length n differ by n times the pixel difference. */
  lemma {:induction false} RowDiffOfConstants(p: seq<int>, q: seq<int>, f: PixelDiff, a: int, b: int)
    requires |p| == |q|
    requires forall k :: 0 <= k < |p| ==> p[k] == a && q[k] == b
    ensures RowDiff(p, q, f) == |p| as real * f(a, b) as real
    decreases |p|
  {
    if |p| > 0 {
      RowDiffOfConstants(p[..|p| - 1], q[..|q| - 1], f, a, b);
    }
  }

  /** Two constant h x w grids differ by h times w times the pixel difference. */
  lemma {:induction false} GridDiffOfConstants(p: seq<seq<int>>, q: seq<seq<int>>, f: PixelDiff, a: int, b: int, w: nat)
    requires |p| == |q| && forall i :: 0 <= i < |p| ==> |p[i]| == w && |q[i]| == w
    requires forall i, k :: 0 <= i < |p| && 0 <= k < w ==> p[i][k] == a && q[i][k] == b
    ensures GridDiff(p, q, f) == |p| as real * (w as real * f(a, b) as real)
    decreases |p|
  {
    if |p| > 0 {
      var n := |p| - 1;
      var row := w as real * f(a, b) as real;
      GridDiffOfConstants(p[..n], q[..n], f, a, b, w);
      RowDiffOfConstants(p[n], q[n], f, a, b);
      assert GridDiff(p, q, f) == GridDiff(p[..n], q[..n], f) + RowDiff(p[n], q[n], f);
      MultiplySuccessor(n, row);
    }
  }

  lemma MultiplySuccessor(n: nat, x: real)
    ensures n as real * x + x == (n + 1) as real * x
  {
  }

  lemma {:induction false} RowDiffSymmetric(p: seq<int>, q: seq<int>)
    requires |p| == |q|
    ensures RowDiff(p, q, AbsDiff) == RowDiff(q, p, AbsDiff)
    decreases |p|
  {
    if |p| > 0 {
      RowDiffSymmetric(p[..|p| - 1], q[..|q| - 1]);
    }
  }

  /** The corrected difference does not depend on the order of the frames. */
  lemma {:induction false} GridDiffSymmetric(p: seq<seq<int>>, q: seq<seq<int>>)
    requires SameShape(p, q)
    ensures GridDiff(p, q, AbsDiff) == GridDiff(q, p, AbsDiff)
    decreases |p|
  {
    if |p| > 0 {
      GridDiffSymmetric(p[..|p| - 1], q[..|q| - 1]);
      RowDiffSymmetric(p[|p| - 1], q[|q| - 1]);
    }
  }

  /** Identical frames differ by nothing, in both readings. */
  lemma GrayDiffOfSameFrame(frame: Image, gray: ToGray)
    requires SameShape(gray(frame), gray(frame))
    ensures GrayDiffAsWritten(frame, frame, gray) == 0.0
    ensures GrayDiff(frame, frame, gray) == 0.0
  {
    GridDiffOfSame(gray(frame), WrappedDiff);
    GridDiffOfSame(gray(frame), AbsDiff);
  }

  /**
   * The black-versus-white test on 100 x 100 frames: as written each pixel
   * contributes (0 - 255) mod 256 = 1, so the total is 100 * 100; the
   * absolute difference gives 255 per pixel.  The reversed order gives 255
   * per pixel as written too, so the code is not symmetric.
   */
  lemma GrayDiffBlackWhite(black: Image, white: Image, gray: ToGray)
    requires |gray(black)| == 100 == |gray(white)|
    requires forall i :: 0 <= i < 100 ==> |gray(black)[i]| == 100 && |gray(white)[i]| == 100
    requires forall i, k :: 0 <= i < 100 && 0 <= k < 100 ==> gray(black)[i][k] == 0 && gray(white)[i][k] == 255
    ensures GrayDiffAsWritten(black, white, gray) == 100.0 * 100.0
    ensures GrayDiffAsWritten(white, black, gray) == 100.0 * (100.0 * 255.0)
    ensures GrayDiff(black, white, gray) == 100.0 * (100.0 * 255.0) == GrayDiff(white, black, gray)
  {
    GridDiffOfConstants(gray(black), gray(white), WrappedDiff, 0, 255, 100);
    GridDiffOfConstants(gray(white), gray(black), WrappedDiff, 255, 0, 100);
    GridDiffOfConstants(gray(black), gray(white), AbsDiff, 0, 255, 100);
    GridDiffSymmetric(gray(black), gray(white));
  }

  lemma {:induction false} RowDiffBounds(p: seq<int>, q: seq<int>)
    requires |p| == |q|
    requires forall k :: 0 <= k < |p| ==> 0 <= p[k] < 256 && 0 <= q[k] < 256
    ensures 0.0 <= RowDiff(p, q, AbsDiff) <= 255.0 * |p| as real
    decreases |p|
  {
    if |p| > 0 {
      RowDiffBounds(p[..|p| - 1], q[..|q| - 1]);
    }
  }

  /** On grey levels the corrected difference is zero exactly for identical grids. */
  lemma {:induction false} RowDiffZero(p: seq<int>, q: seq<int>)
    requires |p| == |q|
    ensures RowDiff(p, q, AbsDiff) == 0.0 <==> p == q
    decreases |p|
  {
    if |p| > 0 {
      var n := |p| - 1;
      RowDiffZero(p[..n], q[..n]);
      RowDiffSymmetric(p[..n], q[..n]);
      NonNegativeRowDiff(p[..n], q[..n]);
      if p == q {
        assert p[..n] == q[..n];
      }
      if p[..n] == q[..n] && p[n] == q[n] {
        assert p == p[..n] + [p[n]] && q == q[..n] + [q[n]];
      }
    } else {
      assert p == [] == q;
    }
  }

  lemma {:induction false} NonNegativeRowDiff(p: seq<int>, q: seq<int>)
    requires |p| == |q|
    ensures RowDiff(p, q, AbsDiff) >= 0.0
    decreases |p|
  {
    if |p| > 0 {
      NonNegativeRowDiff(p[..|p| - 1], q[..|q| - 1]);
    }
  }

  /** On grey-level grids the corrected difference is non-negative, and zero exactly for identical grids. */
  lemma {:induction false} GridDiffZero(p: seq<seq<int>>, q: seq<seq<int>>)
    requires SameShape(p, q)
    ensures GridDiff(p, q, AbsDiff) >= 0.0
    ensures GridDiff(p, q, AbsDiff) == 0.0 <==> p == q
    decreases |p|
  {
    if |p| > 0 {
      var n := |p| - 1;
      GridDiffZero(p[..n], q[..n]);
      NonNegativeRowDiff(p[n], q[n]);
      RowDiffZero(p[n], q[n]);
      if p == q {
        assert p[..n] == q[..n];
      }
      if p[..n] == q[..n] && p[n] == q[n] {
        assert p == p[..n] + [p[n]] && q == q[..n] + [q[n]];
      }
    }
  }

  /**
   * The corrected compute_gray_diff measures change: it does not depend on
   * the order of the two frames, it is never negative, and it is zero
   * exactly when the two grey-level images are identical.
   */
  lemma GrayDiffMeasuresChange(previous: Image, current: Image, gray: ToGray)
    requires SameShape(gray(previous), gray(current))
    ensures GrayDiff(previous, current, gray) == GrayDiff(current, previous, gray) >= 0.0
    ensures GrayDiff(previous, current, gray) == 0.0 <==> gray(previous) == gray(current)
  {
    GridDiffSymmetric(gray(previous), gray(current));
    GridDiffZero(gray(previous), gray(current));
  }

  // ---------------------------------------------------------------------
  // select_stable_frames (extract_utils.py:82-112)

  /** sum(diff[i:i+n]) with Python's slicing. */
  function WindowSum(diff: seq<real>, i: int, n: int): real
  {
    Sum(PySlice(diff, i, i + n))
  }

  /** idx is the first start among 0 .. |diff| - n - 1 with the smallest window sum. */
  ghost predicate EarliestMinimum(diff: seq<real>, n: int, idx: int)
  {
    0 <= idx < |diff| - n &&
    (forall i :: 0 <= i < |diff| - n ==> WindowSum(diff, idx, n) <= WindowSum(diff, i, n)) &&
    (forall i :: 0 <= i < idx ==> WindowSum(diff, i, n) > WindowSum(diff, idx, n))
  }

  /** Among the starts below i, idx is the first with the smallest window sum. */
  ghost predicate FirstMinimumBelow(diff: seq<real>, n: int, idx: int, i: int)
  {
    0 <= idx < i &&
    (forall k :: 0 <= k < i ==> WindowSum(diff, idx, n) <= WindowSum(diff, k, n)) &&
    (forall k :: 0 <= k < idx ==> WindowSum(diff, k, n) > WindowSum(diff, idx, n))
  }

  /** One step of the scan: a strictly smaller window sum at i takes over, anything else keeps idx. */
  lemma FirstMinimumStep(diff: seq<real>, n: int, idx: int, i: nat, takes: bool)
    requires i == 0 || FirstMinimumBelow(diff, n, idx, i)
    requires takes <==> i == 0 || WindowSum(diff, i, n) < WindowSum(diff, idx, n)
    ensures takes ==> FirstMinimumBelow(diff, n, i, i + 1)
    ensures !takes ==> FirstMinimumBelow(diff, n, idx, i + 1)
  {
    if takes && i > 0 {
      FirstMinimumTakes(diff, n, idx, i);
    }
  }

  /** A window sum at i strictly below the first minimum so far is the new first minimum. */
  lemma FirstMinimumTakes(diff: seq<real>, n: int, idx: int, i: nat)
    requires FirstMinimumBelow(diff, n, idx, i) && WindowSum(diff, i, n) < WindowSum(diff, idx, n)
    ensures FirstMinimumBelow(diff, n, i, i + 1)
  {
    var least, best := WindowSum(diff, i, n), WindowSum(diff, idx, n);
    forall k | 0 <= k < i ensures WindowSum(diff, k, n) > least {
      assert best <= WindowSum(diff, k, n);
    }
    forall k | 0 <= k < i + 1 ensures least <= WindowSum(diff, k, n) {
      if k < i {
        assert WindowSum(diff, k, n) > least;
      }
    }
  }

  /**
   * select_stable_frames: scans the starts 0 .. len(diff) - n - 1 and keeps
   * the first window whose sum is strictly below the best so far; with no
   * start to try it returns 0.  (The start len(diff) - n is never tried.)
   */
  method SelectStableFrames(diff: seq<real>, n: int) returns (index: int)
    ensures |diff| - n <= 0 ==> index == 0
    ensures |diff| - n > 0 ==> EarliestMinimum(diff, n, index)
  {
    // float("inf"): no window has been seen yet
    var currentMin: Option<real> := None;
    index := 0;
    var i := 0;
    while i < |diff| - n
      invariant 0 <= i && (i > 0 ==> i <= |diff| - n)
      invariant i == 0 <==> currentMin.None?
      invariant i == 0 ==> index == 0
      invariant i > 0 ==> currentMin == Some(WindowSum(diff, index, n)) && FirstMinimumBelow(diff, n, index, i)
    {
      var currentSum := WindowSum(diff, i, n);
      if currentMin.None? || currentSum < currentMin.value {
        FirstMinimumStep(diff, n, index, i, true);
        index := i;
        currentMin := Some(currentSum);
      } else {
        FirstMinimumStep(diff, n, index, i, false);
      }
      i := i + 1;
    }
  }

  /** Every scan of i >= 1 starts has a first minimum. */
  lemma {:induction false} FirstMinimumExists(diff: seq<real>, n: int, i: nat)
    requires i >= 1
    ensures exists idx :: FirstMinimumBelow(diff, n, idx, i)
    decreases i
  {
    if i == 1 {
      FirstMinimumStep(diff, n, 0, 0, true);
    } else {
      var previous: nat := i - 1;
      FirstMinimumExists(diff, n, previous);
      var idx :| FirstMinimumBelow(diff, n, idx, previous);
      var takes := WindowSum(diff, previous, n) < WindowSum(diff, idx, n);
      FirstMinimumStep(diff, n, idx, previous, takes);
    }
  }

  /** With at least one start to try there is an earliest minimum. */
  lemma EarliestMinimumExists(diff: seq<real>, n: int)
    requires |diff| - n > 0
    ensures exists idx :: EarliestMinimum(diff, n, idx)
  {
    FirstMinimumExists(diff, n, |diff| - n);
    var idx :| FirstMinimumBelow(diff, n, idx, |diff| - n);
    assert EarliestMinimum(diff, n, idx);
  }

  /** The earliest minimum is unique: any two starts with that description are the same. */
  lemma EarliestMinimumUnique(diff: seq<real>, n: int, a: int, b: int)
    requires EarliestMinimum(diff, n, a) && EarliestMinimum(diff, n, b)
    ensures a == b
  {
    assert WindowSum(diff, a, n) <= WindowSum(diff, b, n);
    assert WindowSum(diff, b, n) <= WindowSum(diff, a, n);
  }

  lemma SumOfFive(a: real, b: real, c: real, d: real, e: real)
    ensures Sum([a, b, c, d, e]) == a + b + c + d + e
  {
    assert [a, b, c, d, e][..4] == [a, b, c, d];
    assert [a, b, c, d][..3] == [a, b, c];
    assert [a, b, c][..2] == [a, b];
    assert [a, b][..1] == [a];
    assert [a][..0] == [];
    assert Sum([a]) == a;
    assert Sum([a, b]) == a + b;
    assert Sum([a, b, c]) == a + b + c;
    assert Sum([a, b, c, d]) == a + b + c + d;
  }

  /** A window of five samples sums its five entries. */
  lemma WindowOfFive(diff: seq<real>, a: nat)
    requires a + 5 <= |diff|
    ensures WindowSum(diff, a, 5) == diff[a] + diff[a + 1] + diff[a + 2] + diff[a + 3] + diff[a + 4]
  {
    assert PySlice(diff, a, a + 5) == [diff[a], diff[a + 1], diff[a + 2], diff[a + 3], diff[a + 4]];
    SumOfFive(diff[a], diff[a + 1], diff[a + 2], diff[a + 3], diff[a + 4]);
  }

  /** The stable-frames test: a spike at index 2 of ten zeros; windows of five start best at 3. */
  lemma StableFramesExample(idx: int)
    requires EarliestMinimum([0.0, 0.0, 1.0, 0.0, 0.0, 0.0, 0.0, 0.0, 0.0, 0.0], 5, idx)
    ensures idx == 3
  {
    var diff := [0.0, 0.0, 1.0, 0.0, 0.0, 0.0, 0.0, 0.0, 0.0, 0.0];
    SpikeAtTwo(diff, idx);
  }

  /** Ten motion values, zero but for a spike at index 2: windows of five start best at 3. */
  lemma SpikeAtTwo(diff: seq<real>, idx: int)
    requires |diff| == 10 && diff[2] == 1.0 && forall k :: 0 <= k < 10 && k != 2 ==> diff[k] == 0.0
    requires EarliestMinimum(diff, 5, idx)
    ensures idx == 3
  {
    assert WindowSum(diff, 0, 5) == 1.0 by { WindowOfFive(diff, 0); }
    assert WindowSum(diff, 1, 5) == 1.0 by { WindowOfFive(diff, 1); }
    assert WindowSum(diff, 2, 5) == 1.0 by { WindowOfFive(diff, 2); }
    assert WindowSum(diff, 3, 5) == 0.0 by { WindowOfFive(diff, 3); }
    assert WindowSum(diff, 4, 5) == 0.0 by { WindowOfFive(diff, 4); }
    assert WindowSum(diff, idx, 5) <= WindowSum(diff, 3, 5);
    assert 3 < idx ==> WindowSum(diff, 3, 5) > WindowSum(diff, idx, 5);
  }

  // ---------------------------------------------------------------------
  // project_chrominance (extract_utils.py:115-142)

  /** The chrominance pair (x, y). */
  datatype Chroma = Chroma(x: real, y: real)

  /** project_chrominance: x = 3r - 2g and y = 1.5r + g + 1.5b. */
  function ProjectChrominance(r: real, g: real, b: real): (c: Chroma)
    ensures c.x - 3.0 * r == -2.0 * g
    ensures c.y - g == 1.5 * (r + b)
  {
    Chroma(3.0 * r - 2.0 * g, 1.5 * r + g + 1.5 * b)
  }

  /** The projection is linear: it maps sums to sums and scales with its input. */
  lemma ProjectChrominanceLinear(r: real, g: real, b: real, r': real, g': real, b': real, k: real)
    ensures var c, c', s := ProjectChrominance(r, g, b), ProjectChrominance(r', g', b'),
                          ProjectChrominance(k * r + r', k * g + g', k * b + b');
      s.x == k * c.x + c'.x && s.y == k * c.y + c'.y
  {
  }

  /** Grey maps to (v, 4v): black maps to the origin, and x does not depend on blue. */
  lemma ProjectChrominanceOfGrey(v: real, b: real)
    ensures ProjectChrominance(v, v, v) == Chroma(v, 4.0 * v)
    ensures ProjectChrominance(0.0, 0.0, 0.0) == Chroma(0.0, 0.0)
    ensures ProjectChrominance(v, v, b).x == v
  {
  }

  /**
   * Equation (9) of de Haan and Jeanne (2013), which the docstring cites:
   * y = 1.5r + g - 1.5b, with the minus sign project_chrominance drops.
   */
  function ProjectChrominanceIntended(r: real, g: real, b: real): Chroma
  {
    Chroma(3.0 * r - 2.0 * g, 1.5 * r + g - 1.5 * b)
  }

  /**
   * With equation (9)'s sign grey lies on the diagonal x == y: black maps to
   * the origin and grey 1 to (1, 1), the two points the chrominance test
   * asserts.  The code as written maps grey 1 to (1, 4) (ProjectChrominanceOfGrey).
   */
  lemma IntendedChrominanceOfGrey(v: real)
    ensures ProjectChrominanceIntended(v, v, v) == Chroma(v, v)
    ensures ProjectChrominanceIntended(0.0, 0.0, 0.0) == Chroma(0.0, 0.0)
    ensures ProjectChrominanceIntended(1.0, 1.0, 1.0) == Chroma(1.0, 1.0) != ProjectChrominance(1.0, 1.0, 1.0)
  {
  }
}
