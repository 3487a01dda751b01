/*
 * The face tracker shared by the mask-based scripts
 * (bob/rppg/chrom/script/extract_pulse_from_mask.py:190-245,
 * bob/rppg/ssr/script/ssr_from_mask.py:187-244,
 * bob/rppg/cvpr14/script/extract_signals.py:190-245 and
 * bob/rppg/cvpr14/script/extract_face_and_bg_signals.py:178-230).
 *
 * On the first frame the mask comes from the 66 facial keypoints and the
 * face width is fixed for the whole sequence; on every later frame the face
 * is cropped with the previous frame's box, the previous features are
 * tracked into it, and the mask follows the transform relating the two
 * feature sets when OpenCV finds one.  The features tracked on the next
 * frame are re-detected in the current crop, falling back on the tracked
 * ones.  OpenCV is a parameter, and so is the crop: the scripts pass
 * BaseUtils.CropFace (CropWith below), whose result only ever reaches the
 * feature detector and tracker.
 */
module Tracker {
  import opened Numerics
  import opened BaseUtils
  import opened ChromUtils
  import opened Cvpr14Utils

  /** A colour video frame: 3 x height x width, with at least one row. */
  type Frame = f: Image | |f| == 3 && HasFrameShape(f) witness [[[0]], [[0]], [[0]]]

  /** The mask get_mask draws on a frame selects among that frame's pixels. */
  lemma FrameFitsMask(frame: Frame, maskPoints: MaskPolygon, contains: Contains)
    ensures Fits(frame, GetMask(frame, maskPoints, contains))
  {
  }

  /** crop_face(frame, bbox, facewidth). */
  type Crop = (Image, Box, nat) -> Image

  /** crop_face of BaseUtils on the three-channel frames of a video. */
  function CropWith(sample: Sampler): Crop
  {
    (frame: Image, b: Box, facewidth: nat) => if |frame| == 3 then CropFace(frame, b, facewidth, sample) else []
  }

  /** The library calls the tracker relies on. */
  datatype Oracles = Oracles(crop: Crop, detect: Detector, flow: Flow, estimate: Estimate, sqrt: Sqrt)

  /** What the frame loop carries from one frame to the next. */
  datatype TrackState = TrackState(maskPoints: MaskPolygon, facewidth: nat, prevBox: Box, prevFace: Image, prevFeatures: Option<Features>)

  /** The mask of kp66_to_mask: nine keypoints moved inwards by the indent. */
  function KeypointMask(keypoints: seq<(real, real)>, indent: int, sqrt: Sqrt): (mp: MaskPolygon)
    requires |keypoints| == 66
    ensures |mp| == 9
  {
    MaskPoints(keypoints, PixelIndent(Truncated(keypoints[1]), Truncated(keypoints[15]), indent, sqrt))
  }

  /** prev_features: the features re-detected in the crop, or the tracked ones when detection finds none. */
  function Fallback(detected: Option<Features>, tracked: Option<Features>): (f: Option<Features>)
    ensures detected.Some? ==> f == detected
    ensures detected.None? ==> f == tracked
  {
    if detected.Some? then detected else tracked
  }

  /**
   * Frame 0: the mask from the keypoints (an assertion unless there are 66
   * of them), the face width of frames[0]'s box, and the features detected
   * in the crop (searched twice, so the fallback changes nothing).
   */
  function FirstFrame(frame: Image, keypoints: seq<(real, real)>, indent: int, boxes: seq<Box>, o: Oracles): (r: Result<TrackState>)
    ensures r.Ok? <==> |keypoints| == 66 && |boxes| > 0
  {
    if |keypoints| != 66 then Err("You should provide a set 66 keypoints")
    else if |boxes| == 0 then Err("list index out of range")
    else
      var facewidth := boxes[0].width;
      var face := o.crop(frame, boxes[0], facewidth);
      var good := o.detect(face);
      Ok(TrackState(KeypointMask(keypoints, indent, o.sqrt), facewidth, boxes[0],
                    o.crop(frame, boxes[0], facewidth), Fallback(o.detect(face), good)))
  }

  /**
   * Frame i > 0: crop with the previous box, track the previous features
   * (cv2 raises when there are none), move the mask when a transform is
   * found, then take this frame's box for the next frame.
   */
  function NextFrame(s: TrackState, frame: Image, i: nat, boxes: seq<Box>, o: Oracles): (r: Result<TrackState>)
    ensures r.Ok? <==> s.prevFeatures.Some? && i < |boxes|
    ensures r.Ok? ==> r.value.facewidth == s.facewidth && r.value.prevBox == boxes[i] && r.value.prevFeatures.Some?
  {
    var face := o.crop(frame, s.prevBox, s.facewidth);
    match s.prevFeatures
    case None => Err("calcOpticalFlowPyrLK: no previous points to track")
    case Some(previous) =>
      var good := o.flow(s.prevFace, face, previous);
      var maskPoints := match o.estimate(previous, good)
        case None => s.maskPoints
        case Some(t) => CurrentMaskPoints(s.maskPoints, t);
      if i >= |boxes| then Err("list index out of range")
      else Ok(TrackState(maskPoints, s.facewidth, boxes[i], o.crop(frame, boxes[i], s.facewidth),
                         Fallback(o.detect(face), Some(good))))
  }

  /** One frame of the tracker, whichever it is. */
  function Track(s: Option<TrackState>, frame: Image, i: nat, keypoints: seq<(real, real)>, indent: int, boxes: seq<Box>, o: Oracles): (r: Result<TrackState>)
    requires i == 0 <==> s.None?
  {
    if i == 0 then FirstFrame(frame, keypoints, indent, boxes, o) else NextFrame(s.value, frame, i, boxes, o)
  }

  /** The state the loop carries into frame i, given the states left by the frames before it. */
  function Carried(states: seq<TrackState>): (s: Option<TrackState>)
    ensures s.None? <==> |states| == 0
    ensures s.Some? ==> s.value == states[|states| - 1]
  {
    if |states| == 0 then None else Some(states[|states| - 1])
  }

  /** The states the tracker leaves after each of the first k frames, or the exception that stopped it. */
  function Tracked(video: seq<Image>, keypoints: seq<(real, real)>, indent: int, boxes: seq<Box>, o: Oracles, k: nat): (r: Result<seq<TrackState>>)
    requires k <= |video|
    ensures r.Ok? ==> |r.value| == k
  {
    if k == 0 then Ok([])
    else match Tracked(video, keypoints, indent, boxes, o, k - 1)
      case Err(e) => Err(e)
      case Ok(states) =>
        match Track(Carried(states), video[k - 1], k - 1, keypoints, indent, boxes, o)
        case Err(e) => Err(e)
        case Ok(t) => Ok(states + [t])
  }

  /** The states of the first j frames do not depend on the frames after them. */
  lemma {:induction false} TrackedPrefix(video: seq<Image>, keypoints: seq<(real, real)>, indent: int, boxes: seq<Box>, o: Oracles, j: nat, k: nat)
    requires j <= k <= |video|
    requires Tracked(video, keypoints, indent, boxes, o, k).Ok?
    ensures Tracked(video, keypoints, indent, boxes, o, j) == Ok(Tracked(video, keypoints, indent, boxes, o, k).value[..j])
    decreases k
  {
    var states := Tracked(video, keypoints, indent, boxes, o, k).value;
    if j < k {
      var previous: nat := k - 1;
      TrackedPrefix(video, keypoints, indent, boxes, o, j, previous);
      assert states[..previous][..j] == states[..j];
    } else {
      assert states[..j] == states;
    }
  }

  /** An exception ends the loop: the later frames change nothing. */
  lemma {:induction false} TrackedStops(video: seq<Image>, keypoints: seq<(real, real)>, indent: int, boxes: seq<Box>, o: Oracles, j: nat, k: nat)
    requires j <= k <= |video|
    requires Tracked(video, keypoints, indent, boxes, o, j).Err?
    ensures Tracked(video, keypoints, indent, boxes, o, k) == Tracked(video, keypoints, indent, boxes, o, j)
    decreases k - j
  {
    if j < k {
      var next: nat := j + 1;
      TrackedStops(video, keypoints, indent, boxes, o, next, k);
    }
  }

  /**
   * The face width is the width of frame 0's box for the whole sequence, and
   * the box and face kept after frame i are frame i's box and its crop.
   */
  lemma {:induction false} TrackedKeepsFacewidth(video: seq<Image>, keypoints: seq<(real, real)>, indent: int, boxes: seq<Box>, o: Oracles, k: nat)
    requires 0 < k <= |video|
    requires Tracked(video, keypoints, indent, boxes, o, k).Ok?
    ensures k <= |boxes|
    ensures var states := Tracked(video, keypoints, indent, boxes, o, k).value;
      forall i :: 0 <= i < k ==>
        states[i].facewidth == boxes[0].width && states[i].prevBox == boxes[i] &&
        states[i].prevFace == o.crop(video[i], boxes[i], boxes[0].width)
  {
    if k > 1 {
      var previous: nat := k - 1;
      TrackedKeepsFacewidth(video, keypoints, indent, boxes, o, previous);
    }
  }

  /** Tracking only fails on the keypoint count, on frame 1 when frame 0's crop had no features, or when the boxes run out. */
  lemma {:induction false} TrackedSucceeds(video: seq<Image>, keypoints: seq<(real, real)>, indent: int, boxes: seq<Box>, o: Oracles, k: nat)
    requires 2 <= k <= |video|
    ensures Tracked(video, keypoints, indent, boxes, o, k).Ok? <==>
      Tracked(video, keypoints, indent, boxes, o, 1).Ok? && Tracked(video, keypoints, indent, boxes, o, 1).value[0].prevFeatures.Some? &&
      k <= |boxes|
  {
    if k > 2 {
      var previous: nat := k - 1;
      TrackedSucceeds(video, keypoints, indent, boxes, o, previous);
    }
  }

  /**
   * A later frame k: the face is cropped from frame k with frame k - 1's box
   * at the fixed width; the mask is carried over unchanged when no transform
   * is found and moved by the transform otherwise; the next features are the
   * ones detected in that crop, or the tracked ones.
   */
  lemma {:induction false} TrackedStep(video: seq<Image>, keypoints: seq<(real, real)>, indent: int, boxes: seq<Box>, o: Oracles, k: nat)
    requires 1 <= k < |video|
    requires Tracked(video, keypoints, indent, boxes, o, k + 1).Ok?
    ensures var states := Tracked(video, keypoints, indent, boxes, o, k + 1).value;
      var s, t := states[k - 1], states[k];
      var face := o.crop(video[k], boxes[k - 1], boxes[0].width);
      s.prevFeatures.Some? &&
      var good := o.flow(o.crop(video[k - 1], boxes[k - 1], boxes[0].width), face, s.prevFeatures.value);
      (o.estimate(s.prevFeatures.value, good).None? ==> t.maskPoints == s.maskPoints) &&
      (o.estimate(s.prevFeatures.value, good).Some? ==> t.maskPoints == CurrentMaskPoints(s.maskPoints, o.estimate(s.prevFeatures.value, good).value)) &&
      t.prevFeatures == Fallback(o.detect(face), Some(good))
  {
    TrackedKeepsFacewidth(video, keypoints, indent, boxes, o, k);
  }

  /** The mask of frame 0 is the keypoint mask. */
  lemma {:induction false} TrackedFirstMask(video: seq<Image>, keypoints: seq<(real, real)>, indent: int, boxes: seq<Box>, o: Oracles)
    requires 0 < |video|
    requires Tracked(video, keypoints, indent, boxes, o, 1).Ok?
    ensures |keypoints| == 66
    ensures Tracked(video, keypoints, indent, boxes, o, 1).value[0].maskPoints == KeypointMask(keypoints, indent, o.sqrt)
  {
  }

  /** Without a transform on any later frame the mask stays the keypoint mask of frame 0. */
  lemma {:induction false} TrackedMaskWithoutTransforms(video: seq<Image>, keypoints: seq<(real, real)>, indent: int, boxes: seq<Box>, o: Oracles, k: nat)
    requires 0 < k <= |video|
    requires forall a: Features, b: Features :: o.estimate(a, b).None?
    requires Tracked(video, keypoints, indent, boxes, o, k).Ok?
    ensures |keypoints| == 66
    ensures forall i :: 0 <= i < k ==> Tracked(video, keypoints, indent, boxes, o, k).value[i].maskPoints == KeypointMask(keypoints, indent, o.sqrt)
  {
    if k > 1 {
      var previous: nat := k - 1;
      TrackedPrefix(video, keypoints, indent, boxes, o, k, k);
      TrackedStep(video, keypoints, indent, boxes, o, previous);
      TrackedMaskWithoutTransforms(video, keypoints, indent, boxes, o, previous);
      var states := Tracked(video, keypoints, indent, boxes, o, k).value;
      var face := o.crop(video[previous], boxes[previous - 1], boxes[0].width);
      var good := o.flow(o.crop(video[previous - 1], boxes[previous - 1], boxes[0].width), face, states[previous - 1].prevFeatures.value);
      assert o.estimate(states[previous - 1].prevFeatures.value, good).None?;
    }
  }

  // ---------------------------------------------------------------------
  // The frame loop of the mask scripts: the tracker step, then the
  // script's own work on the frame and the current mask, frame by frame.

  /** What the frame loop has built after some frames: the tracker's states and one value per frame. */
  datatype Tracking<T> = Tracking(states: seq<TrackState>, values: seq<T>)

  /** The per-frame work of a script: from the frame and the current mask points, a value or the exception it raised. */
  type PerFrame<T> = (Frame, MaskPolygon) -> Result<T>

  /** The frame loop after the first k frames, or the exception that stopped it. */
  function TrackedWith<T>(video: seq<Frame>, keypoints: seq<(real, real)>, indent: int, boxes: seq<Box>, o: Oracles, f: PerFrame<T>, k: nat)
    : (r: Result<Tracking<T>>)
    requires k <= |video|
    ensures r.Ok? ==> |r.value.states| == k == |r.value.values|
  {
    if k == 0 then Ok(Tracking([], []))
    else match TrackedWith(video, keypoints, indent, boxes, o, f, k - 1)
      case Err(e) => Err(e)
      case Ok(p) =>
        match Track(Carried(p.states), video[k - 1], k - 1, keypoints, indent, boxes, o)
        case Err(e) => Err(e)
        case Ok(t) =>
          match f(video[k - 1], t.maskPoints)
          case Err(e) => Err(e)
          case Ok(v) => Ok(Tracking(p.states + [t], p.values + [v]))
  }

  /**
   * The loop runs the tracker unchanged: its states are the tracker's, and
   * the value of frame i is computed from frame i and the mask the tracker
   * holds after frame i.
   */
  lemma {:induction false} TrackedWithTracks<T>(video: seq<Frame>, keypoints: seq<(real, real)>, indent: int, boxes: seq<Box>, o: Oracles, f: PerFrame<T>, k: nat)
    requires k <= |video|
    requires TrackedWith(video, keypoints, indent, boxes, o, f, k).Ok?
    ensures Tracked(video, keypoints, indent, boxes, o, k) == Ok(TrackedWith(video, keypoints, indent, boxes, o, f, k).value.states)
    ensures var p := TrackedWith(video, keypoints, indent, boxes, o, f, k).value;
      forall i :: 0 <= i < k ==> f(video[i], p.states[i].maskPoints) == Ok(p.values[i])
  {
    if k > 0 {
      var previous: nat := k - 1;
      TrackedWithTracks(video, keypoints, indent, boxes, o, f, previous);
    }
  }

  /** When the per-frame work cannot raise, the loop fails exactly when the tracker does. */
  lemma {:induction false} TrackedWithTotal<T>(video: seq<Frame>, keypoints: seq<(real, real)>, indent: int, boxes: seq<Box>, o: Oracles, f: PerFrame<T>, k: nat)
    requires k <= |video|
    requires forall frame: Frame, mp: MaskPolygon :: f(frame, mp).Ok?
    ensures TrackedWith(video, keypoints, indent, boxes, o, f, k).Ok? <==> Tracked(video, keypoints, indent, boxes, o, k).Ok?
    ensures TrackedWith(video, keypoints, indent, boxes, o, f, k).Err? ==>
      TrackedWith(video, keypoints, indent, boxes, o, f, k) == Err(Tracked(video, keypoints, indent, boxes, o, k).reason)
  {
    if k > 0 {
      var previous: nat := k - 1;
      TrackedWithTotal(video, keypoints, indent, boxes, o, f, previous);
      if TrackedWith(video, keypoints, indent, boxes, o, f, previous).Ok? {
        TrackedWithTracks(video, keypoints, indent, boxes, o, f, previous);
      }
    }
  }

  /** An exception ends the loop: the later frames change nothing. */
  lemma {:induction false} TrackedWithStops<T>(video: seq<Frame>, keypoints: seq<(real, real)>, indent: int, boxes: seq<Box>, o: Oracles, f: PerFrame<T>, j: nat, k: nat)
    requires j <= k <= |video|
    requires TrackedWith(video, keypoints, indent, boxes, o, f, j).Err?
    ensures TrackedWith(video, keypoints, indent, boxes, o, f, k) == TrackedWith(video, keypoints, indent, boxes, o, f, j)
    decreases k - j
  {
    if j < k {
      var next: nat := j + 1;
      TrackedWithStops(video, keypoints, indent, boxes, o, f, next, k);
    }
  }

  /** One frame of the loop: the tracker step, then the script's work on the frame. */
  method TrackFrame<T>(video: seq<Frame>, keypoints: seq<(real, real)>, indent: int, boxes: seq<Box>, o: Oracles, f: PerFrame<T>,
                       i: nat, track: Option<TrackState>, ghost done: Tracking<T>)
    returns (r: Result<(TrackState, T)>)
    requires i < |video| && TrackedWith(video, keypoints, indent, boxes, o, f, i) == Ok(done) && track == Carried(done.states)
    ensures r.Err? ==> TrackedWith(video, keypoints, indent, boxes, o, f, i + 1) == Err(r.reason)
    ensures r.Ok? ==> TrackedWith(video, keypoints, indent, boxes, o, f, i + 1) == Ok(Tracking(done.states + [r.value.0], done.values + [r.value.1]))
  {
    var next := Track(track, video[i], i, keypoints, indent, boxes, o);
    if next.Err? {
      return Err(next.reason);
    }
    var value := f(video[i], next.value.maskPoints);
    if value.Err? {
      return Err(value.reason);
    }
    return Ok((next.value, value.value));
  }

  /**
   * The frame loop itself: the tracker's variables carried from frame to
   * frame, and the value of frame i written at index i of an array
   * allocated with `zero` everywhere, as numpy.zeros does.
   */
  method TrackVideo<T>(video: seq<Frame>, keypoints: seq<(real, real)>, indent: int, boxes: seq<Box>, o: Oracles, f: PerFrame<T>, zero: T)
    returns (r: Result<seq<T>>)
    ensures TrackedWith(video, keypoints, indent, boxes, o, f, |video|).Err? ==>
      r == Err(TrackedWith(video, keypoints, indent, boxes, o, f, |video|).reason)
    ensures TrackedWith(video, keypoints, indent, boxes, o, f, |video|).Ok? ==>
      r == Ok(TrackedWith(video, keypoints, indent, boxes, o, f, |video|).value.values)
  {
    var values := new T[|video|](_ => zero);
    var track: Option<TrackState> := None;
    ghost var states: seq<TrackState> := [];
    for i := 0 to |video|
      invariant TrackedWith(video, keypoints, indent, boxes, o, f, i) == Ok(Tracking(states, values[..i]))
      invariant track == Carried(states)
    {
      var step := TrackFrame(video, keypoints, indent, boxes, o, f, i, track, Tracking(states, values[..i]));
      if step.Err? {
        var failed: nat := i + 1;
        TrackedWithStops(video, keypoints, indent, boxes, o, f, failed, |video|);
        return Err(step.reason);
      }
      ghost var done := values[..i];
      track := Some(step.value.0);
      states := states + [step.value.0];
      values[i] := step.value.1;
      assert values[..i + 1] == done + [values[i]];
    }
    assert values[..] == values[..|video|];
    return Ok(values[..]);
  }
}
