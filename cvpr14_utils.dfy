/*
 * bob/rppg/cvpr14/extract_utils.py: the region of interest of Li et al.
 * (CVPR 2014) and the mean green value inside it.  Nine of the 66 DRMF
 * keypoints are moved towards the inside of the face and closed into a
 * polygon; the mask is the set of pixels inside that polygon.  The tracking
 * helpers project the polygon from one frame to the next with the affine
 * transform OpenCV estimates.
 *
 * sqrt, matplotlib's point-in-polygon test, OpenCV's feature detector,
 * optical flow and rigid-transform estimation are parameters.
 */
module Cvpr14Utils {
  import opened Numerics
  import opened BaseUtils
  import opened ChromUtils

  /** A mask vertex: coordinate [0] and coordinate [1] as the keypoint file stores them. */
  datatype Point = Point(c0: real, c1: real)

  /** The vertices get_mask accepts: it reads mask_points[0], which raises IndexError on an empty list. */
  type MaskPolygon = mp: seq<Point> | |mp| > 0 witness [Point(0.0, 0.0)]

  /** What kp66_to_mask returns, in that order: the nine vertices and the mask. */
  datatype MaskResult = MaskResult(points: seq<Point>, mask: Mask)

  /** numpy.sqrt. */
  type Sqrt = real -> real

  /** matplotlib's Path(vertices, closed=True).contains_points at (x, y). */
  type Contains = (seq<Point>, int, int) -> bool

  // ---------------------------------------------------------------------
  // kp66_to_mask (extract_utils.py:14-107)

  /** The keypoints kept for the mask, in this order. */
  const Selected: seq<nat> := [1, 3, 5, 8, 11, 13, 15, 41, 47]

  /** The keypoint test of the selection loop. */
  predicate IsSelected(k: nat)
  {
    k == 1 || k == 3 || k == 5 || k == 8 || k == 11 || k == 13 || k == 15 || k == 41 || k == 47
  }

  /** How many selected keypoints come before keypoint k. */
  function SelectedBelow(k: nat): (c: nat)
    ensures c <= |Selected|
    ensures forall j :: 0 <= j < c ==> Selected[j] < k
    ensures forall j :: c <= j < |Selected| ==> Selected[j] >= k
  {
    if k <= 1 then 0 else if k <= 3 then 1 else if k <= 5 then 2 else if k <= 8 then 3
    else if k <= 11 then 4 else if k <= 13 then 5 else if k <= 15 then 6 else if k <= 41 then 7
    else if k <= 47 then 8 else 9
  }

  /** [int(keypoints[k, 0]), int(keypoints[k, 1])]. */
  function Truncated(p: (real, real)): (q: Point)
    ensures q.c0 == Trunc(p.0) as real && q.c1 == Trunc(p.1) as real
  {
    Point(Trunc(p.0) as real, Trunc(p.1) as real)
  }

  /** The pixel indent: int(indent / 100 * face width), the face width being |mp[0] - mp[6]|. */
  function PixelIndent(mp0: Point, mp6: Point, indent: int, sqrt: Sqrt): int
  {
    var d0, d1 := mp0.c0 - mp6.c0, mp0.c1 - mp6.c1;
    Trunc(indent as real / 100.0 * sqrt(d0 * d0 + d1 * d1))
  }

  /** The selected keypoints, truncated, in index order. */
  function SelectedPoints(keypoints: seq<(real, real)>): (sel: seq<Point>)
    requires |keypoints| == 66
    ensures |sel| == |Selected|
    ensures forall j :: 0 <= j < |Selected| ==> sel[j] == Truncated(keypoints[Selected[j]])
  {
    seq(|Selected|, j requires 0 <= j < |Selected| => Truncated(keypoints[Selected[j]]))
  }

  /**
   * The nine points moved inside the face by the pixel indent d: the first
   * three along coordinate 1 upwards, the fourth along coordinate 0
   * downwards, the next three along coordinate 1 downwards, the last two
   * along coordinate 0 upwards, and then those two swapped.
   */
  function Moved(sel: seq<Point>, d: int): (mp: seq<Point>)
    requires |sel| == 9
    ensures |mp| == 9
  {
    var e := d as real;
    [Point(sel[0].c0, sel[0].c1 + e), Point(sel[1].c0, sel[1].c1 + e), Point(sel[2].c0, sel[2].c1 + e),
     Point(sel[3].c0 - e, sel[3].c1),
     Point(sel[4].c0, sel[4].c1 - e), Point(sel[5].c0, sel[5].c1 - e), Point(sel[6].c0, sel[6].c1 - e),
     Point(sel[8].c0 + e, sel[8].c1), Point(sel[7].c0 + e, sel[7].c1)]
  }

  /** The nine vertices of the mask built from the 66 keypoints with pixel indent d. */
  function MaskPoints(keypoints: seq<(real, real)>, d: int): (mp: seq<Point>)
    requires |keypoints| == 66
    ensures |mp| == 9
  {
    Moved(SelectedPoints(keypoints), d)
  }

  /** The in-place moves and the swap of kp66_to_mask (extract_utils.py:77-95). */
  method MoveInside(sel: seq<Point>, d: int) returns (mp: seq<Point>)
    requires |sel| == 9
    ensures mp == Moved(sel, d)
  {
    mp := sel;
    mp := mp[0 := Point(mp[0].c0, mp[0].c1 + d as real)];
    mp := mp[1 := Point(mp[1].c0, mp[1].c1 + d as real)];
    mp := mp[2 := Point(mp[2].c0, mp[2].c1 + d as real)];
    mp := mp[3 := Point(mp[3].c0 - d as real, mp[3].c1)];
    mp := mp[4 := Point(mp[4].c0, mp[4].c1 - d as real)];
    mp := mp[5 := Point(mp[5].c0, mp[5].c1 - d as real)];
    mp := mp[6 := Point(mp[6].c0, mp[6].c1 - d as real)];
    mp := mp[7 := Point(mp[7].c0 + d as real, mp[7].c1)];
    mp := mp[8 := Point(mp[8].c0 + d as real, mp[8].c1)];
    var swp := mp[7];
    mp := mp[7 := mp[8]];
    mp := mp[8 := swp];
    var target := Moved(sel, d);
    assert forall k :: 0 <= k < 9 ==> mp[k] == target[k];
  }

  /** kp66_to_mask: the vertices and the mask they enclose in the image, or the assertion on the keypoint count. */
  method Kp66ToMask(image: Image, keypoints: seq<(real, real)>, indent: int, sqrt: Sqrt, contains: Contains)
    returns (r: Result<MaskResult>)
    requires HasFrameShape(image)
    ensures r.Ok? <==> |keypoints| == 66
    ensures r.Ok? ==>
      var d := PixelIndent(Truncated(keypoints[1]), Truncated(keypoints[15]), indent, sqrt);
      r.value.points == MaskPoints(keypoints, d) && r.value.mask == GetMask(image, r.value.points, contains)
  {
    if |keypoints| != 66 {
      return Err("You should provide a set 66 keypoints");
    }
    var sel := SelectKeypoints(keypoints);
    assert sel == SelectedPoints(keypoints);
    var d := PixelIndent(sel[0], sel[6], indent, sqrt);
    var mp := MoveInside(sel, d);
    var mask := GetMask(image, mp, contains);
    return Ok(MaskResult(mp, mask));
  }

  /** The loop of kp66_to_mask that keeps the nine selected keypoints, truncated, in index order. */
  method SelectKeypoints(keypoints: seq<(real, real)>) returns (mp: seq<Point>)
    requires |keypoints| == 66
    ensures |mp| == |Selected|
    ensures forall j :: 0 <= j < |Selected| ==> mp[j] == Truncated(keypoints[Selected[j]])
  {
    mp := [];
    for k := 0 to 66
      invariant |mp| == SelectedBelow(k)
      invariant forall j :: 0 <= j < |mp| ==> mp[j] == Truncated(keypoints[Selected[j]])
    {
      if IsSelected(k) {
        mp := mp + [Truncated(keypoints[k])];
      }
    }
  }

  /** The mask test's keypoints: indent 10 on a face 50 pixels wide moves the vertices by 5. */
  lemma Kp66Example(keypoints: seq<(real, real)>, sqrt: Sqrt)
    requires |keypoints| == 66
    requires keypoints[1] == (10.0, 10.0) && keypoints[3] == (20.0, 10.0) && keypoints[5] == (30.0, 10.0)
    requires keypoints[8] == (50.0, 35.0) && keypoints[11] == (30.0, 60.0) && keypoints[13] == (20.0, 60.0)
    requires keypoints[15] == (10.0, 60.0) && keypoints[41] == (10.0, 30.0) && keypoints[47] == (10.0, 40.0)
    requires sqrt(2500.0) == 50.0
    ensures PixelIndent(Truncated(keypoints[1]), Truncated(keypoints[15]), 10, sqrt) == 5
    ensures MaskPoints(keypoints, 5) ==
      [Point(10.0, 15.0), Point(20.0, 15.0), Point(30.0, 15.0), Point(45.0, 35.0), Point(30.0, 55.0),
       Point(20.0, 55.0), Point(10.0, 55.0), Point(15.0, 40.0), Point(15.0, 30.0)]
  {
    assert Trunc(10.0) == 10 && Trunc(20.0) == 20 && Trunc(30.0) == 30 && Trunc(50.0) == 50;
    assert Trunc(35.0) == 35 && Trunc(60.0) == 60 && Trunc(40.0) == 40;
    assert 10 as real / 100.0 * 50.0 == 5.0;
    assert Trunc(5.0) == 5;
  }

  // ---------------------------------------------------------------------
  // get_mask (extract_utils.py:110-148)

  /** A 3-D frame with at least one row: image.shape[1] and image.shape[2] exist. */
  ghost predicate HasFrameShape(image: Image)
  {
    |image| > 0 && |image[0]| > 0 && HasShape(image, |image|, |image[0]|, |image[0][0]|)
  }

  /** (p[1], p[0]): matplotlib takes (x, y), the keypoints are stored the other way round. */
  function Swapped(p: Point): Point
  {
    Point(p.c1, p.c0)
  }

  /** The vertex list of the closed polygon: the first point, then all points from the last to the first. */
  method PolyVerts(maskPoints: seq<Point>) returns (verts: seq<Point>)
    requires |maskPoints| > 0
    ensures |verts| == |maskPoints| + 1
    ensures verts[0] == Swapped(maskPoints[0]) == verts[|maskPoints|]
    ensures forall k :: 1 <= k <= |maskPoints| ==> verts[k] == Swapped(maskPoints[|maskPoints| - k])
  {
    verts := [Swapped(maskPoints[0])];
    var i := |maskPoints| - 1;
    while i >= 0
      invariant -1 <= i < |maskPoints|
      invariant |verts| == |maskPoints| - i
      invariant verts[0] == Swapped(maskPoints[0])
      invariant forall k :: 1 <= k < |verts| ==> verts[k] == Swapped(maskPoints[|maskPoints| - k])
    {
      verts := verts + [Swapped(maskPoints[i])];
      i := i - 1;
    }
  }

  /** The polygon's vertex list as a value (what PolyVerts builds). */
  function Polygon(maskPoints: seq<Point>): (verts: seq<Point>)
    requires |maskPoints| > 0
    ensures |verts| == |maskPoints| + 1
    ensures verts[0] == Swapped(maskPoints[0]) == verts[|maskPoints|]
    ensures forall k :: 1 <= k <= |maskPoints| ==> verts[k] == Swapped(maskPoints[|maskPoints| - k])
  {
    [Swapped(maskPoints[0])] +
      seq(|maskPoints|, k requires 0 <= k < |maskPoints| => Swapped(maskPoints[|maskPoints| - 1 - k]))
  }

  /** The loop that builds the vertex list and its closed form agree. */
  lemma PolygonUnique(maskPoints: seq<Point>, verts: seq<Point>)
    requires |maskPoints| > 0 && |verts| == |maskPoints| + 1 && verts[0] == Swapped(maskPoints[0])
    requires forall k :: 1 <= k <= |maskPoints| ==> verts[k] == Swapped(maskPoints[|maskPoints| - k])
    ensures verts == Polygon(maskPoints)
  {
    var p := Polygon(maskPoints);
    forall k | 0 <= k < |verts| ensures verts[k] == p[k] { }
  }

  /**
   * get_mask: the ny x nx grid (ny = image.shape[1], nx = image.shape[2])
   * whose cell (y, x) tells whether the point (x, y) lies in the polygon.
   */
  function GetMask(image: Image, maskPoints: MaskPolygon, contains: Contains): (grid: Mask)
    requires HasFrameShape(image)
    ensures IsGrid(grid, |image[0]|, |image[0][0]|)
    ensures forall y, x :: 0 <= y < |image[0]| && 0 <= x < |image[0][0]| ==>
      grid[y][x] == contains(Polygon(maskPoints), x, y)
  {
    var ny, nx := |image[0]|, |image[0][0]|;
    var verts := Polygon(maskPoints);
    seq(ny, y requires 0 <= y < ny => seq(nx, x requires 0 <= x < nx => contains(verts, x, y)))
  }

  // ---------------------------------------------------------------------
  // Tracking (extract_utils.py:151-294)

  /** A 2 x 3 affine matrix as estimateRigidTransform(..., fullAffine=False) returns it. */
  datatype Affine = Affine(m00: real, m01: real, m02: real, m10: real, m11: real, m12: real)

  /** cv2.transform of one point by a 2 x 3 matrix. */
  function Apply(t: Affine, p: Point): (q: Point)
    ensures q.c0 == t.m00 * p.c0 + t.m01 * p.c1 + t.m02
    ensures q.c1 == t.m10 * p.c0 + t.m11 * p.c1 + t.m12
  {
    Point(t.m00 * p.c0 + t.m01 * p.c1 + t.m02, t.m10 * p.c0 + t.m11 * p.c1 + t.m12)
  }

  /** get_current_mask_points: every vertex moved by the transform, in order. */
  function CurrentMaskPoints(previous: seq<Point>, t: Affine): (current: seq<Point>)
    ensures |current| == |previous|
    ensures forall k :: 0 <= k < |previous| ==> current[k] == Apply(t, previous[k])
  {
    seq(|previous|, k requires 0 <= k < |previous| => Apply(t, previous[k]))
  }

  /** The identity transform leaves the mask where it was. */
  lemma IdentityKeepsMask(previous: seq<Point>)
    ensures CurrentMaskPoints(previous, Affine(1.0, 0.0, 0.0, 0.0, 1.0, 0.0)) == previous
  {
    var c := CurrentMaskPoints(previous, Affine(1.0, 0.0, 0.0, 0.0, 1.0, 0.0));
    forall k | 0 <= k < |previous| ensures c[k] == previous[k] { }
  }

  /** A pure translation moves every vertex by the same offset. */
  lemma TranslationMovesMask(previous: seq<Point>, dx: real, dy: real, k: nat)
    requires k < |previous|
    ensures CurrentMaskPoints(previous, Affine(1.0, 0.0, dx, 0.0, 1.0, dy))[k] ==
      Point(previous[k].c0 + dx, previous[k].c1 + dy)
  {
  }

  /** Tracked feature points (what goodFeaturesToTrack and calcOpticalFlowPyrLK return). */
  type Features = seq<Point>

  /** OpenCV's feature detector on a face crop; None when no corner is found. */
  type Detector = Image -> Option<Features>

  /** calcOpticalFlowPyrLK: where the previous features went in the current frame. */
  type Flow = (Image, Image, Features) -> Features

  /** estimateRigidTransform: None when no transform could be estimated. */
  type Estimate = (Features, Features) -> Option<Affine>

  // ---------------------------------------------------------------------
  // compute_average_colors_mask / _wholeface (extract_utils.py:297-358)

  /** compute_average_colors_mask: the mean green over the mask (NaN, None, on an empty mask). */
  function AverageGreenMask(image: Image, mask: Mask): (g: Option<real>)
    requires Fits(image, mask)
    ensures g.None? <==> CountTrue(mask) == 0
    ensures g.Some? ==> MeanOver(g.value, image, mask, 1)
  {
    ChannelMean(image, mask, 1)
  }

  /** The green average of Li et al. is the green component of CHROM's mean colour. */
  lemma AverageGreenIsMeanGreen(image: Image, mask: Mask)
    requires Fits(image, mask)
    ensures AverageGreenMask(image, mask).Some? <==> MeanRgb(image, mask).Some?
    ensures AverageGreenMask(image, mask).Some? ==> AverageGreenMask(image, mask).value == MeanRgb(image, mask).value.g
  {
  }

  /** The rows of a channel laid end to end. */
  function Pixels(channel: seq<seq<int>>): (s: seq<int>)
    decreases |channel|
  {
    if |channel| == 0 then [] else Pixels(channel[..|channel| - 1]) + channel[|channel| - 1]
  }

  /** compute_average_colors_wholeface: the mean of channel 1 over every pixel. */
  function AverageGreenWholeFace(face: Image): (g: Option<real>)
    requires |face| == 3
  {
    Mean(Reals(Pixels(face[1])))
  }

  /** The all-true mask of a channel's shape. */
  function FullMask(channel: seq<seq<int>>): (m: Mask)
    ensures |m| == |channel| && forall i :: 0 <= i < |channel| ==> |m[i]| == |channel[i]|
    ensures forall i, k :: 0 <= i < |m| && 0 <= k < |m[i]| ==> m[i][k]
  {
    seq(|channel|, i requires 0 <= i < |channel| => seq(|channel[i]|, _ => true))
  }

  lemma {:induction false} SelectFullMask(channel: seq<seq<int>>)
    ensures Select(channel, FullMask(channel)) == Pixels(channel)
    decreases |channel|
  {
    if |channel| > 0 {
      var n := |channel| - 1;
      assert FullMask(channel)[..n] == FullMask(channel[..n]);
      SelectFullMask(channel[..n]);
      SelectRowAll(channel[n], FullMask(channel)[n]);
    }
  }

  /** The whole-face average is the masked average with every pixel selected. */
  lemma WholeFaceIsFullMask(face: Image)
    requires |face| == 3 && HasShape(face, 3, |face[1]|, if |face[1]| == 0 then 0 else |face[1][0]|)
    ensures Fits(face, FullMask(face[1]))
    ensures AverageGreenWholeFace(face) == AverageGreenMask(face, FullMask(face[1]))
  {
    SelectFullMask(face[1]);
  }
}
