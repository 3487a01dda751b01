/*
 * bob/rppg/base/utils.py: images, bounding boxes, face cropping and the
 * design of the band-pass filter common to all three algorithms, plus the
 * numpy idioms the algorithms share (boolean-mask selection, slicing).
 *
 * An image is channel-major, image[c][row][col], as bob stores colour
 * frames (3 x height x width).  The pixel interpolation of bob.ip.base.scale
 * and the coefficients computed by scipy.signal.firwin are parameters.
 */
module BaseUtils {
  import opened Numerics

  type Image = seq<seq<seq<int>>>
  type Mask = seq<seq<bool>>

  /** `img` is a c x h x w array. */
  ghost predicate HasShape<T>(img: seq<seq<seq<T>>>, c: nat, h: nat, w: nat)
  {
    |img| == c &&
    forall ch :: 0 <= ch < c ==> |img[ch]| == h && forall r :: 0 <= r < h ==> |img[ch][r]| == w
  }

  /** `m` is an h x w array. */
  ghost predicate IsGrid<T>(m: seq<seq<T>>, h: nat, w: nat)
  {
    |m| == h && forall r :: 0 <= r < h ==> |m[r]| == w
  }

  /**
   * A bob.ip.facedetect.BoundingBox: topleft = (top, left), size = (height, width),
   * and the detector's quality.  Boxes come from the face detector or from
   * stored annotations and have a positive size.
   */
  datatype BoundingBox = BoundingBox(top: int, left: int, height: int, width: int, quality: real)
  type Box = b: BoundingBox | b.height > 0 && b.width > 0 witness BoundingBox(0, 0, 1, 1, 0.0)

  // ---------------------------------------------------------------------
  // numpy slicing and boolean selection

  /** Where Python places a slice bound k on a sequence of length n. */
  function SliceBound(k: int, n: nat): (r: nat)
    ensures r <= n
    ensures 0 <= k <= n ==> r == k
    ensures k > n ==> r == n
    ensures k < 0 ==> r == Max(k + n, 0)
  {
    if k < 0 then (if k + n < 0 then 0 else k + n) else if k > n then n else k
  }

  /** s[a:b] with Python's rules (negative bounds count from the end, bounds are clamped). */
  function PySlice<T>(s: seq<T>, a: int, b: int): (r: seq<T>)
    ensures |r| <= |s|
    ensures 0 <= a <= b <= |s| ==> r == s[a..b]
  {
    var lo, hi := SliceBound(a, |s|), SliceBound(b, |s|);
    if lo <= hi then s[lo..hi] else []
  }

  /** The entries of one row of a channel that the mask row selects, left to right. */
  function SelectRow<T>(row: seq<T>, m: seq<bool>): (r: seq<T>)
    requires |row| == |m|
    ensures |r| <= |row|
    decreases |m|
  {
    if |m| == 0 then []
    else SelectRow(row[..|m| - 1], m[..|m| - 1]) + (if m[|m| - 1] then [row[|m| - 1]] else [])
  }

  /** numpy's channel[mask]: the selected entries in row-major order. */
  function Select<T>(channel: seq<seq<T>>, mask: Mask): (r: seq<T>)
    requires |channel| == |mask|
    requires forall i :: 0 <= i < |mask| ==> |channel[i]| == |mask[i]|
    decreases |mask|
  {
    if |mask| == 0 then []
    else
      var n := |mask| - 1;
      Select(channel[..n], mask[..n]) + SelectRow(channel[n], mask[n])
  }

  function CountRow(m: seq<bool>): nat
    decreases |m|
  {
    if |m| == 0 then 0 else CountRow(m[..|m| - 1]) + (if m[|m| - 1] then 1 else 0)
  }

  /** numpy.count_nonzero of a mask. */
  function CountTrue(mask: Mask): nat
    decreases |mask|
  {
    if |mask| == 0 then 0 else CountTrue(mask[..|mask| - 1]) + CountRow(mask[|mask| - 1])
  }

  lemma {:induction false} SelectRowCount<T>(row: seq<T>, m: seq<bool>)
    requires |row| == |m|
    ensures |SelectRow(row, m)| == CountRow(m)
    decreases |m|
  {
    if |m| > 0 {
      SelectRowCount(row[..|m| - 1], m[..|m| - 1]);
    }
  }

  /** As many entries are selected as the mask has true cells. */
  lemma {:induction false} SelectCount<T>(channel: seq<seq<T>>, mask: Mask)
    requires |channel| == |mask|
    requires forall i :: 0 <= i < |mask| ==> |channel[i]| == |mask[i]|
    ensures |Select(channel, mask)| == CountTrue(mask)
    decreases |mask|
  {
    if |mask| > 0 {
      SelectCount(channel[..|mask| - 1], mask[..|mask| - 1]);
      SelectRowCount(channel[|mask| - 1], mask[|mask| - 1]);
    }
  }

  lemma {:induction false} SelectRowAgree<T>(a: seq<T>, b: seq<T>, m: seq<bool>)
    requires |a| == |b| == |m|
    requires forall k :: 0 <= k < |m| && m[k] ==> a[k] == b[k]
    ensures SelectRow(a, m) == SelectRow(b, m)
    decreases |m|
  {
    if |m| > 0 {
      SelectRowAgree(a[..|m| - 1], b[..|m| - 1], m[..|m| - 1]);
    }
  }

  /** Cells outside the mask do not influence the selection. */
  lemma {:induction false} SelectAgree<T>(a: seq<seq<T>>, b: seq<seq<T>>, mask: Mask)
    requires |a| == |b| == |mask|
    requires forall i :: 0 <= i < |mask| ==> |a[i]| == |b[i]| == |mask[i]|
    requires forall i, k :: 0 <= i < |mask| && 0 <= k < |mask[i]| && mask[i][k] ==> a[i][k] == b[i][k]
    ensures Select(a, mask) == Select(b, mask)
    decreases |mask|
  {
    if |mask| > 0 {
      var n := |mask| - 1;
      SelectAgree(a[..n], b[..n], mask[..n]);
      SelectRowAgree(a[n], b[n], mask[n]);
    }
  }

  lemma {:induction false} SelectRowConstant<T>(row: seq<T>, m: seq<bool>, v: T)
    requires |row| == |m|
    requires forall k :: 0 <= k < |row| ==> row[k] == v
    ensures forall k :: 0 <= k < |SelectRow(row, m)| ==> SelectRow(row, m)[k] == v
    decreases |m|
  {
    if |m| > 0 {
      SelectRowConstant(row[..|m| - 1], m[..|m| - 1], v);
    }
  }

  /** Selecting from a constant channel yields only that constant. */
  lemma {:induction false} SelectConstant<T>(channel: seq<seq<T>>, mask: Mask, v: T)
    requires |channel| == |mask|
    requires forall i :: 0 <= i < |mask| ==> |channel[i]| == |mask[i]|
    requires forall i, k :: 0 <= i < |channel| && 0 <= k < |channel[i]| ==> channel[i][k] == v
    ensures forall k :: 0 <= k < |Select(channel, mask)| ==> Select(channel, mask)[k] == v
    decreases |mask|
  {
    if |mask| > 0 {
      var n := |mask| - 1;
      SelectConstant(channel[..n], mask[..n], v);
      SelectRowConstant(channel[n], mask[n], v);
    }
  }

  /** A full mask selects every row completely, in order. */
  lemma {:induction false} SelectRowAll<T>(row: seq<T>, m: seq<bool>)
    requires |row| == |m|
    requires forall k :: 0 <= k < |m| ==> m[k]
    ensures SelectRow(row, m) == row
    decreases |m|
  {
    if |m| > 0 {
      SelectRowAll(row[..|m| - 1], m[..|m| - 1]);
    }
  }

  /** Converts integer pixel values to reals. */
  function Reals(s: seq<int>): (r: seq<real>)
    ensures |r| == |s|
    ensures forall k :: 0 <= k < |s| ==> r[k] == s[k] as real
  {
    seq(|s|, k requires 0 <= k < |s| => s[k] as real)
  }

  // ---------------------------------------------------------------------
  // Cropping and scaling (utils.py:11-57)

  /**
   * bob.ip.base.scale's interpolated value: given the source image and the
   * output height and width, the value at (channel, row, column).
   */
  type Sampler = (Image, nat, nat, nat, nat, nat) -> real

  /** scale_image: a 3 x height x width array filled by bob's scaler. */
  function ScaleImage(image: Image, height: nat, width: nat, sample: Sampler): (r: seq<seq<seq<real>>>)
    requires |image| == 3
    ensures HasShape(r, 3, height, width)
    ensures forall c, i, j :: 0 <= c < 3 && 0 <= i < height && 0 <= j < width ==>
      r[c][i][j] == sample(image, height, width, c, i, j)
  {
    seq(3, c requires 0 <= c < 3 =>
      seq(height, i requires 0 <= i < height =>
        seq(width, j requires 0 <= j < width => sample(image, height, width, c, i, j))))
  }

  /** numpy's astype('uint8') of a float: truncation, then reduction modulo 256. */
  function ToUint8(x: real): (r: int)
    ensures 0 <= r < 256
    ensures 0.0 <= x < 256.0 ==> r as real <= x < r as real + 1.0
  {
    Trunc(x) % 256
  }

  /** image[:, top:top+height, left:left+width] (utils.py:52). */
  function CropRegion(image: Image, b: Box): (face: Image)
    ensures |face| == |image|
  {
    seq(|image|, c requires 0 <= c < |image| =>
      var rows := PySlice(image[c], b.top, b.top + b.height);
      seq(|rows|, i requires 0 <= i < |rows| => PySlice(rows[i], b.left, b.left + b.width)))
  }

  /** A box lying inside the image crops exactly the pixels it covers. */
  lemma CropRegionInside(image: Image, b: Box, h: nat, w: nat)
    requires HasShape(image, 3, h, w)
    requires 0 <= b.top && b.top + b.height <= h && 0 <= b.left && b.left + b.width <= w
    ensures HasShape(CropRegion(image, b), 3, b.height, b.width)
    ensures forall c, i, j :: 0 <= c < 3 && 0 <= i < b.height && 0 <= j < b.width ==>
      CropRegion(image, b)[c][i][j] == image[c][b.top + i][b.left + j]
  {
  }

  /** The height the face is scaled to: int(facewidth * height / width) (utils.py:53-54). */
  function FaceHeight(b: Box, facewidth: nat): (h: nat)
    ensures h as real <= facewidth as real * (b.height as real / b.width as real) < h as real + 1.0
  {
    Trunc(facewidth as real * (b.height as real / b.width as real))
  }

  /** crop_face: crop to the box, scale to facewidth keeping the box's aspect ratio, cast to uint8. */
  function CropFace(image: Image, b: Box, facewidth: nat, sample: Sampler): (face: Image)
    requires |image| == 3
    ensures HasShape(face, 3, FaceHeight(b, facewidth), facewidth)
    ensures forall c, i, j :: 0 <= c < 3 && 0 <= i < FaceHeight(b, facewidth) && 0 <= j < facewidth ==>
      0 <= face[c][i][j] < 256
  {
    var region := CropRegion(image, b);
    var scaled := ScaleImage(region, FaceHeight(b, facewidth), facewidth, sample);
    seq(3, c requires 0 <= c < 3 =>
      seq(|scaled[c]|, i requires 0 <= i < |scaled[c]| =>
        seq(|scaled[c][i]|, j requires 0 <= j < |scaled[c][i]| => ToUint8(scaled[c][i][j]))))
  }

  /** A square box keeps the requested width as height (the 50 x 50 box cropped to 48 gives 3 x 48 x 48). */
  lemma CropFaceSquare(image: Image, b: Box, facewidth: nat, sample: Sampler)
    requires |image| == 3
    requires b.height == b.width
    ensures HasShape(CropFace(image, b, facewidth, sample), 3, facewidth, facewidth)
  {
    FaceHeightSquare(b, facewidth);
  }

  /** A square box is scaled to a height equal to the requested width. */
  lemma FaceHeightSquare(b: Box, facewidth: nat)
    requires b.height == b.width
    ensures FaceHeight(b, facewidth) == facewidth
  {
    var w := b.width as real;
    assert w > 0.0;
    assert w / w == 1.0;
    assert b.height as real / b.width as real == 1.0;
  }

  // ---------------------------------------------------------------------
  // The library calls the scripts make on faces

  /** m has the rows and row lengths of g. */
  predicate SameGrid<A, B>(m: seq<seq<A>>, g: seq<seq<B>>)
  {
    |m| == |g| && forall i :: 0 <= i < |m| ==> |m[i]| == |g[i]|
  }

  /** m has the rows and row lengths of g, compared from the last row back. */
  predicate SameRows(m: seq<seq<int>>, g: seq<seq<int>>)
    decreases |m|
  {
    |m| == |g| && (|m| == 0 || (|m[|m| - 1]| == |g[|m| - 1]| && SameRows(m[..|m| - 1], g[..|m| - 1])))
  }

  lemma {:induction false} SameRowsAt(m: seq<seq<int>>, g: seq<seq<int>>, i: nat)
    requires SameRows(m, g) && i < |m|
    ensures |m[i]| == |g[i]|
    decreases |m|
  {
    if i < |m| - 1 {
      var n: nat := |m| - 1;
      SameRowsAt(m[..n], g[..n], i);
    }
  }

  /** Every channel of the face has the rows and row lengths of channel 0. */
  predicate IsFace(face: Image)
  {
    |face| == 3 && SameRows(face[1], face[0]) && SameRows(face[2], face[0])
  }

  /** Row i of every channel of a face is as long as row i of channel 0. */
  lemma FaceRow(face: Image, i: nat)
    requires IsFace(face) && i < |face[0]|
    ensures |face[1][i]| == |face[0][i]| && |face[2][i]| == |face[0][i]|
  {
    SameRowsAt(face[1], face[0], i);
    SameRowsAt(face[2], face[0], i);
  }

  /** image is a colour frame and mask a boolean array of the frame's size. */
  ghost predicate Fits(image: Image, mask: Mask)
  {
    |image| == 3 &&
    forall c :: 0 <= c < 3 ==> |image[c]| == |mask| && forall i :: 0 <= i < |mask| ==> |image[c][i]| == |mask[i]|
  }

  /** A mask with the shape of a face's first channel fits every channel. */
  lemma FaceFits(face: Image, mask: Mask)
    requires IsFace(face) && SameGrid(mask, face[0])
    ensures Fits(face, mask)
  {
    forall c, i | 0 <= c < 3 && 0 <= i < |mask|
      ensures |face[c][i]| == |mask[i]|
    {
      FaceRow(face, i);
      assert c == 0 || c == 1 || c == 2;
    }
  }

  /** crop_face(frame, bbox, facewidth): three channels of one grid when the frame is a colour frame. */
  type FaceCrop = (Image, Box, nat) -> Image

  /**
   * The face the scripts work on: the crop, read as a face with no pixels
   * in the case, which crop_face never produces, of a crop that is not
   * three channels of one grid.
   */
  function Cropped(crop: FaceCrop, frame: Image, b: Box, facewidth: nat): (face: Image)
    ensures IsFace(face)
  {
    var face := crop(frame, b, facewidth);
    if IsFace(face) then face else [[], [], []]
  }

  /**
   * bob.ip.skincolorfilter after estimate_gaussian_parameters(model): is
   * the colour (r, g, b) skin at the threshold, the test get_skin_mask makes
   * on every pixel.
   */
  type SkinFilter = (Image, int, int, int, real) -> bool

  /** Row i of get_skin_mask(face, threshold): the verdict on each pixel of the row. */
  function SkinRow(skin: SkinFilter, model: Image, face: Image, threshold: real, i: nat): (row: seq<bool>)
    requires IsFace(face) && i < |face[0]|
    ensures |row| == |face[0][i]| == |face[1][i]| == |face[2][i]|
  {
    assert |face[1][i]| == |face[0][i]| && |face[2][i]| == |face[0][i]| by { FaceRow(face, i); }
    seq(|face[0][i]|, j requires 0 <= j < |face[0][i]| => skin(model, face[0][i][j], face[1][i][j], face[2][i][j], threshold))
  }

  /** The first n rows of get_skin_mask(face, threshold). */
  function SkinRows(skin: SkinFilter, model: Image, face: Image, threshold: real, n: nat): (rows: Mask)
    requires IsFace(face) && n <= |face[0]|
    ensures |rows| == n && forall i :: 0 <= i < n ==> |rows[i]| == |face[0][i]| == |face[1][i]| == |face[2][i]|
  {
    if n == 0 then [] else SkinRows(skin, model, face, threshold, n - 1) + [SkinRow(skin, model, face, threshold, n - 1)]
  }

  /** get_skin_mask(face, threshold): one verdict per pixel of the face. */
  function SkinMask(skin: SkinFilter, model: Image, face: Image, threshold: real): (mask: Mask)
    requires IsFace(face)
    ensures SameGrid(mask, face[0])
  {
    SkinRows(skin, model, face, threshold, |face[0]|)
  }

  /** A row without a true cell counts zero. */
  lemma {:induction false} CountRowNone(m: seq<bool>)
    requires forall j :: 0 <= j < |m| ==> !m[j]
    ensures CountRow(m) == 0
    decreases |m|
  {
    if |m| > 0 {
      CountRowNone(m[..|m| - 1]);
    }
  }

  /** A row with a true cell counts at least one. */
  lemma {:induction false} CountRowSome(m: seq<bool>, x: nat)
    requires x < |m| && m[x]
    ensures CountRow(m) > 0
    decreases |m|
  {
    if x < |m| - 1 {
      assert m[..|m| - 1][x] == m[x];
      CountRowSome(m[..|m| - 1], x);
    }
  }

  /** A mask with a true cell counts at least one. */
  lemma {:induction false} CountTrueSome(mask: seq<seq<bool>>, y: nat, x: nat)
    requires y < |mask| && x < |mask[y]| && mask[y][x]
    ensures CountTrue(mask) > 0
    decreases |mask|
  {
    if y == |mask| - 1 {
      CountRowSome(mask[y], x);
    } else {
      assert mask[..|mask| - 1][y] == mask[y];
      CountTrueSome(mask[..|mask| - 1], y, x);
    }
  }

  /** A mask without a true cell counts zero. */
  lemma {:induction false} CountTrueNone(mask: seq<seq<bool>>)
    requires forall y, x :: 0 <= y < |mask| && 0 <= x < |mask[y]| ==> !mask[y][x]
    ensures CountTrue(mask) == 0
    decreases |mask|
  {
    if |mask| > 0 {
      var n := |mask| - 1;
      CountRowNone(mask[n]);
      assert forall y, x :: 0 <= y < n && 0 <= x < |mask[..n][y]| ==> !mask[..n][y][x] by {
        forall y | 0 <= y < n ensures mask[..n][y] == mask[y] { }
      }
      CountTrueNone(mask[..n]);
    }
  }

  /** A filter that rejects every colour finds no skin in any row. */
  lemma {:induction false} NoSkinRows(skin: SkinFilter, model: Image, face: Image, threshold: real, n: nat)
    requires IsFace(face) && n <= |face[0]|
    requires forall model, r, g, b :: !skin(model, r, g, b, threshold)
    ensures CountTrue(SkinRows(skin, model, face, threshold, n)) == 0
    decreases n
  {
    if n > 0 {
      var rows := SkinRows(skin, model, face, threshold, n);
      var row := SkinRow(skin, model, face, threshold, n - 1);
      NoSkinRows(skin, model, face, threshold, n - 1);
      FaceRow(face, n - 1);
      assert rows[..n - 1] == SkinRows(skin, model, face, threshold, n - 1);
      forall j | 0 <= j < |row| ensures !row[j] {
        assert row[j] == skin(model, face[0][n - 1][j], face[1][n - 1][j], face[2][n - 1][j], threshold);
      }
      CountRowNone(row);
    }
  }

  /** A filter that rejects every colour finds no skin. */
  lemma NoSkin(skin: SkinFilter, model: Image, face: Image, threshold: real)
    requires IsFace(face)
    requires forall model, r, g, b :: !skin(model, r, g, b, threshold)
    ensures CountTrue(SkinMask(skin, model, face, threshold)) == 0
  {
    NoSkinRows(skin, model, face, threshold, |face[0]|);
  }

  // ---------------------------------------------------------------------
  // Band-pass filter (utils.py:60-85)

  /** Pass band in Hertz: plausible heart rates from 42 to 240 beats per minute. */
  const MinFreq: real := 0.7
  const MaxFreq: real := 4.0

  /** scipy.signal.firwin(numtaps, [low, high], pass_zero=False): the taps of a windowed-sinc band-pass. */
  type Firwin = (nat, real, real) -> seq<real>

  /** The parameters firwin receives from build_bandpass_filter. */
  datatype FirDesign = FirDesign(numtaps: nat, low: real, high: real)

  /** The numtaps and normalised cutoffs, or firwin's ValueError. */
  function BandpassDesign(fs: real, order: int): (r: Result<FirDesign>)
    ensures r.Ok? <==> fs > 2.0 * MaxFreq && order >= 0
    ensures r.Ok? ==> r.value.numtaps == order + 1
    ensures r.Ok? ==> 0.0 < r.value.low < r.value.high < 1.0
    ensures r.Ok? ==> r.value.low * (fs / 2.0) == MinFreq && r.value.high * (fs / 2.0) == MaxFreq
  {
    if fs == 0.0 then Err("float division by zero")
    else
      var nyq := fs / 2.0;
      var numtaps := order + 1;
      var low, high := MinFreq / nyq, MaxFreq / nyq;
      if numtaps < 1 then Err("numtaps must be at least 1")
      else if !(0.0 < low && high < 1.0) then Err("Invalid cutoff frequency")
      else
        assert low < high;
        Ok(FirDesign(numtaps, low, high))
  }

  /** build_bandpass_filter: the FIR coefficients for sampling frequency fs and the given order. */
  function BuildBandpassFilter(fs: real, order: int, firwin: Firwin): (r: Result<seq<real>>)
    ensures r.Ok? <==> BandpassDesign(fs, order).Ok?
    ensures r.Ok? ==> var d := BandpassDesign(fs, order).value;
      r.value == firwin(d.numtaps, d.low, d.high) && d.numtaps == order + 1
  {
    match BandpassDesign(fs, order)
    case Err(e) => Err(e)
    case Ok(d) => Ok(firwin(d.numtaps, d.low, d.high))
  }

  /** In beats per minute the normalised pass band covers exactly [42, 240]. */
  lemma BandpassInBeatsPerMinute(fs: real, order: int)
    requires BandpassDesign(fs, order).Ok?
    ensures var d := BandpassDesign(fs, order).value;
      d.low * (fs / 2.0) * 60.0 == 42.0 && d.high * (fs / 2.0) * 60.0 == 240.0
  {
  }
}
