/*
 * bob/rppg/ssr/script/ssr_from_mask.py: 2SR on the pixels of a tracked
 * face mask.  For every video, frame i goes through the tracker shared with
 * the other mask scripts; all the pixels of frame i inside the current mask
 * are the skin pixels, their correlation matrix gives the eigenvalues and
 * eigenvectors stored at index i, and from frame stride on frame i adds the
 * zero-mean chunk built from frames i - stride .. i - 1 to
 * output_data[i - stride:i].  Every frame of the video is processed.
 *
 * OpenCV, matplotlib's point-in-polygon test, numpy.linalg.eig, numpy.sqrt
 * and numpy.std are parameters.
 */
module SsrFromMask {
  import opened Numerics
  import opened BaseUtils
  import opened FilterUtils
  import opened SsrUtils
  import opened Cvpr14Utils
  import opened Tracker
  import opened Scripts
  import Ssr = SpatialSubspaceRotation

  /** The library calls of the script; the tracker's sqrt is numpy.sqrt, used by build_P as well. */
  datatype Library = Library(track: Oracles, contains: Contains, eig: Eig, std: StdDev)

  /** The command-line settings that reach the computation. */
  datatype Settings = Settings(overwrite: bool, indent: int, stride: int)

  // ---------------------------------------------------------------------
  // The work on one frame once the tracker has moved the mask (lines 246-262)

  /** frame[:, face_mask] / 255: the pixels of frame inside the mask drawn from maskPoints. */
  function MaskPixels(frame: Frame, maskPoints: MaskPolygon, contains: Contains): (pixels: Matrix)
    ensures IsMatrix(pixels, 3, CountTrue(GetMask(frame, maskPoints, contains)))
  {
    FrameFitsMask(frame, maskPoints, contains);
    SkinPixels(frame, GetMask(frame, maskPoints, contains))
  }

  /** get_eigen on the mask pixels; it raises when the mask is empty. */
  function MaskEigen(frame: Frame, maskPoints: MaskPolygon, lib: Library): (r: Result<Eigen>)
    ensures r.Ok? <==> CountTrue(GetMask(frame, maskPoints, lib.contains)) > 0
    ensures r.Ok? ==> EigenShape(r.value, 3)
  {
    GetEigen(MaskPixels(frame, maskPoints, lib.contains), CountTrue(GetMask(frame, maskPoints, lib.contains)), lib.eig)
  }

  /** The decomposition stored for a frame has its eigenvalues in non-increasing order. */
  lemma MaskEigenSorted(frame: Frame, maskPoints: MaskPolygon, lib: Library)
    requires MaskEigen(frame, maskPoints, lib).Ok?
    ensures var e := MaskEigen(frame, maskPoints, lib).value;
      e.values[0] >= e.values[1] >= e.values[2]
  {
    var n := CountTrue(GetMask(frame, maskPoints, lib.contains));
    GetEigenSorted(MaskPixels(frame, maskPoints, lib.contains), n, lib.eig);
  }

  // ---------------------------------------------------------------------
  // The frame loop (lines 183-272)

  /**
   * What the loop carries: the tracker's variables (none before frame 0)
   * and the 2SR arrays, whose counter is the frame index.  The face the
   * skin filter was estimated on plays no part here and stays empty.
   */
  datatype MaskLoop = MaskLoop(track: Option<TrackState>, rotation: Ssr.Rotation)

  /** Frame i once the tracker has run: its tracker state and decomposition, with the arrays before the frame. */
  datatype Measure = Measure(track: TrackState, eigen: Eigen, rotation: Ssr.Rotation)

  /** The state before the loop: numpy.zeros of nb_final_frames = len(video) everywhere. */
  function Initial(nb: nat): (st: MaskLoop)
    ensures st.track.None? && Ssr.Sized(st.rotation, nb) && st.rotation.counter == 0 && st.rotation.output == Zeros(nb)
  {
    MaskLoop(None, Ssr.Initial(nb))
  }

  /** Frame i of the loop up to get_eigen: the tracker step, then the decomposition of the pixels inside the new mask. */
  function MeasureFrame(st: MaskLoop, video: seq<Frame>, i: nat, keypoints: seq<(real, real)>, boxes: seq<Box>, s: Settings, lib: Library)
    : (r: Result<Measure>)
    requires i < |video| && (i == 0 <==> st.track.None?)
    ensures r.Ok? ==> r.value.rotation == st.rotation && EigenShape(r.value.eigen, 3)
    ensures Track(st.track, video[i], i, keypoints, s.indent, boxes, lib.track).Err? ==>
      r == Err(Track(st.track, video[i], i, keypoints, s.indent, boxes, lib.track).reason)
    ensures r.Ok? ==>
      Track(st.track, video[i], i, keypoints, s.indent, boxes, lib.track) == Ok(r.value.track) &&
      MaskEigen(video[i], r.value.track.maskPoints, lib) == Ok(r.value.eigen)
  {
    match Track(st.track, video[i], i, keypoints, s.indent, boxes, lib.track)
    case Err(e) => Err(e)
    case Ok(t) =>
      match MaskEigen(video[i], t.maskPoints, lib)
      case Err(e) => Err(e)
      case Ok(e) => Ok(Measure(t, e, st.rotation))
  }

  /** The loop over frames 0 .. k - 1, or the exception that stopped it. */
  function Frames(video: seq<Frame>, keypoints: seq<(real, real)>, boxes: seq<Box>, s: Settings, lib: Library, k: nat): (r: Result<MaskLoop>)
    requires k <= |video|
    ensures r.Ok? ==> Ssr.Sized(r.value.rotation, |video|) && r.value.rotation.counter == k && (r.value.track.None? <==> k == 0)
    decreases k, 0
  {
    if k == 0 then Ok(Initial(|video|))
    else Accumulated(video, keypoints, boxes, s, lib, k - 1)
  }

  /** The loop once frame i has been measured and its decomposition accumulated. */
  function Accumulated(video: seq<Frame>, keypoints: seq<(real, real)>, boxes: seq<Box>, s: Settings, lib: Library, i: nat): (r: Result<MaskLoop>)
    requires i < |video|
    ensures r.Ok? ==> Ssr.Sized(r.value.rotation, |video|) && r.value.rotation.counter == i + 1 && r.value.track.Some?
    decreases i, 2
  {
    match Measured(video, keypoints, boxes, s, lib, i)
    case Err(e) => Err(e)
    case Ok(m) =>
      Ssr.AccumulateAdvances(m.rotation, m.eigen, m.rotation.model, s.stride, lib.track.sqrt, lib.std);
      match Ssr.Accumulate(m.rotation, m.eigen, m.rotation.model, s.stride, lib.track.sqrt, lib.std)
      case Err(e) => Err(e)
      case Ok(rotation) => Ok(MaskLoop(Some(m.track), rotation))
  }

  /** Frame i measured on the state the loop reaches it with. */
  function Measured(video: seq<Frame>, keypoints: seq<(real, real)>, boxes: seq<Box>, s: Settings, lib: Library, i: nat): (r: Result<Measure>)
    requires i < |video|
    ensures r.Ok? ==> Ssr.Sized(r.value.rotation, |video|) && r.value.rotation.counter == i && EigenShape(r.value.eigen, 3)
    decreases i, 1
  {
    match Frames(video, keypoints, boxes, s, lib, i)
    case Err(e) => Err(e)
    case Ok(st) => MeasureFrame(st, video, i, keypoints, boxes, s, lib)
  }

  /** The body of the loop on frame i, from the state before it. */
  function Step(st: MaskLoop, video: seq<Frame>, i: nat, keypoints: seq<(real, real)>, boxes: seq<Box>, s: Settings, lib: Library)
    : (r: Result<MaskLoop>)
    requires i < |video| && (i == 0 <==> st.track.None?) && Ssr.Ready(st.rotation) && st.rotation.counter == i
    ensures r.Ok? ==> r.value.track.Some?
    ensures r.Ok? ==> Ssr.Advances(st.rotation, s.stride, Ok(r.value.rotation))
  {
    match MeasureFrame(st, video, i, keypoints, boxes, s, lib)
    case Err(e) => Err(e)
    case Ok(m) =>
      Ssr.AccumulateAdvances(m.rotation, m.eigen, m.rotation.model, s.stride, lib.track.sqrt, lib.std);
      match Ssr.Accumulate(m.rotation, m.eigen, m.rotation.model, s.stride, lib.track.sqrt, lib.std)
      case Err(e) => Err(e)
      case Ok(rotation) => Ok(MaskLoop(Some(m.track), rotation))
  }

  /** One more frame: an exception stays, and otherwise the loop body runs on the state reached. */
  lemma FramesNext(video: seq<Frame>, keypoints: seq<(real, real)>, boxes: seq<Box>, s: Settings, lib: Library, k: nat)
    requires k < |video|
    ensures Frames(video, keypoints, boxes, s, lib, k).Err? ==>
      Frames(video, keypoints, boxes, s, lib, k + 1) == Frames(video, keypoints, boxes, s, lib, k)
    ensures Frames(video, keypoints, boxes, s, lib, k).Ok? ==>
      var st := Frames(video, keypoints, boxes, s, lib, k).value;
      Ssr.Ready(st.rotation) &&
      Frames(video, keypoints, boxes, s, lib, k + 1) == Step(st, video, k, keypoints, boxes, s, lib)
  {
    assert Frames(video, keypoints, boxes, s, lib, k + 1) == Accumulated(video, keypoints, boxes, s, lib, k);
  }

  /** Once the loop has raised, later frames do not change the exception. */
  lemma {:induction false} FramesStop(video: seq<Frame>, keypoints: seq<(real, real)>, boxes: seq<Box>, s: Settings, lib: Library, j: nat, k: nat)
    requires j <= k <= |video|
    requires Frames(video, keypoints, boxes, s, lib, j).Err?
    ensures Frames(video, keypoints, boxes, s, lib, k) == Frames(video, keypoints, boxes, s, lib, j)
    decreases k
  {
    if k > j {
      var previous: nat := k - 1;
      FramesStop(video, keypoints, boxes, s, lib, j, previous);
      FramesNext(video, keypoints, boxes, s, lib, previous);
    }
  }

  /**
   * The loop runs the shared tracker unchanged: it fails whenever the
   * tracker does, with the same exception, and otherwise carries the state
   * the tracker leaves after the last frame.
   */
  lemma {:induction false} FramesTrack(video: seq<Frame>, keypoints: seq<(real, real)>, boxes: seq<Box>, s: Settings, lib: Library, k: nat)
    requires k <= |video|
    ensures Tracked(video, keypoints, s.indent, boxes, lib.track, k).Err? ==>
      Frames(video, keypoints, boxes, s, lib, k).Err?
    ensures Frames(video, keypoints, boxes, s, lib, k).Ok? ==>
      Tracked(video, keypoints, s.indent, boxes, lib.track, k).Ok? &&
      Frames(video, keypoints, boxes, s, lib, k).value.track == Carried(Tracked(video, keypoints, s.indent, boxes, lib.track, k).value)
    decreases k
  {
    if k > 0 {
      var previous: nat := k - 1;
      FramesTrack(video, keypoints, boxes, s, lib, previous);
      FramesTrackStep(video, keypoints, boxes, s, lib, previous);
    }
  }

  /** One frame of FramesTrack: the loop and the tracker take the same step on frame i. */
  lemma FramesTrackStep(video: seq<Frame>, keypoints: seq<(real, real)>, boxes: seq<Box>, s: Settings, lib: Library, i: nat)
    requires i < |video|
    requires Tracked(video, keypoints, s.indent, boxes, lib.track, i).Err? ==> Frames(video, keypoints, boxes, s, lib, i).Err?
    requires Frames(video, keypoints, boxes, s, lib, i).Ok? ==>
      Tracked(video, keypoints, s.indent, boxes, lib.track, i).Ok? &&
      Frames(video, keypoints, boxes, s, lib, i).value.track == Carried(Tracked(video, keypoints, s.indent, boxes, lib.track, i).value)
    ensures Tracked(video, keypoints, s.indent, boxes, lib.track, i + 1).Err? ==>
      Frames(video, keypoints, boxes, s, lib, i + 1).Err?
    ensures Frames(video, keypoints, boxes, s, lib, i + 1).Ok? ==>
      Tracked(video, keypoints, s.indent, boxes, lib.track, i + 1).Ok? &&
      Frames(video, keypoints, boxes, s, lib, i + 1).value.track == Carried(Tracked(video, keypoints, s.indent, boxes, lib.track, i + 1).value)
  {
    FramesNext(video, keypoints, boxes, s, lib, i);
    if Tracked(video, keypoints, s.indent, boxes, lib.track, i).Err? {
      FramesStop(video, keypoints, boxes, s, lib, i, i + 1);
    }
  }

  /** A frame that goes through: the tracker's step on the state before it, and its decomposition stored at its index. */
  lemma FramesStep(video: seq<Frame>, keypoints: seq<(real, real)>, boxes: seq<Box>, s: Settings, lib: Library, k: nat)
    requires k < |video|
    requires Frames(video, keypoints, boxes, s, lib, k + 1).Ok?
    ensures Frames(video, keypoints, boxes, s, lib, k).Ok?
    ensures var before, after := Frames(video, keypoints, boxes, s, lib, k).value, Frames(video, keypoints, boxes, s, lib, k + 1).value;
      Track(before.track, video[k], k, keypoints, s.indent, boxes, lib.track) == Ok(after.track.value) &&
      MaskEigen(video[k], after.track.value.maskPoints, lib).Ok? &&
      after.rotation.eigen == before.rotation.eigen[k := MaskEigen(video[k], after.track.value.maskPoints, lib).value]
  {
    FramesNext(video, keypoints, boxes, s, lib, k);
    if Frames(video, keypoints, boxes, s, lib, k).Err? {
      assert false;
    }
    var before := Frames(video, keypoints, boxes, s, lib, k).value;
    var m := MeasureFrame(before, video, k, keypoints, boxes, s, lib);
    assert m.Ok?;
    var stored := Ssr.Accumulate(m.value.rotation, m.value.eigen, m.value.rotation.model, s.stride, lib.track.sqrt, lib.std);
    assert Frames(video, keypoints, boxes, s, lib, k + 1) == Ok(MaskLoop(Some(m.value.track), stored.value));
  }

  /** Entry i < k of eigen is the decomposition of frame i inside the mask of states[i]. */
  ghost predicate StoredBy(video: seq<Frame>, eigen: seq<Eigen>, states: seq<TrackState>, lib: Library, k: nat)
  {
    k <= |video| && k <= |eigen| && k <= |states| &&
    forall i :: 0 <= i < k ==> MaskEigen(video[i], states[i].maskPoints, lib) == Ok(eigen[i])
  }

  /** Storing frame k's decomposition at index k extends StoredBy by one frame. */
  lemma StoredByNext(video: seq<Frame>, eigen: seq<Eigen>, states: seq<TrackState>, lib: Library, k: nat, t: TrackState)
    requires StoredBy(video, eigen, states, lib, k) && k < |video| && k < |eigen| && |states| == k
    requires MaskEigen(video[k], t.maskPoints, lib).Ok?
    ensures StoredBy(video, eigen[k := MaskEigen(video[k], t.maskPoints, lib).value], states + [t], lib, k + 1)
  {
  }

  /** Frame i stores its decomposition at index i, under the mask the tracker holds for it. */
  lemma FramesEigenStep(video: seq<Frame>, keypoints: seq<(real, real)>, boxes: seq<Box>, s: Settings, lib: Library, i: nat)
    requires i < |video| && Frames(video, keypoints, boxes, s, lib, i + 1).Ok? && Frames(video, keypoints, boxes, s, lib, i).Ok?
    requires Tracked(video, keypoints, s.indent, boxes, lib.track, i).Ok?
    requires StoredBy(video, Frames(video, keypoints, boxes, s, lib, i).value.rotation.eigen, Tracked(video, keypoints, s.indent, boxes, lib.track, i).value, lib, i)
    ensures Tracked(video, keypoints, s.indent, boxes, lib.track, i + 1).Ok?
    ensures StoredBy(video, Frames(video, keypoints, boxes, s, lib, i + 1).value.rotation.eigen, Tracked(video, keypoints, s.indent, boxes, lib.track, i + 1).value, lib, i + 1)
  {
    var states := Tracked(video, keypoints, s.indent, boxes, lib.track, i).value;
    var before, after := Frames(video, keypoints, boxes, s, lib, i).value, Frames(video, keypoints, boxes, s, lib, i + 1).value;
    FramesTrack(video, keypoints, boxes, s, lib, i);
    FramesStep(video, keypoints, boxes, s, lib, i);
    var t, eigen := after.track.value, before.rotation.eigen;
    assert before.track == Carried(states);
    assert Tracked(video, keypoints, s.indent, boxes, lib.track, i + 1) == Ok(states + [t]);
    StoredByNext(video, eigen, states, lib, i, t);
  }

  /**
   * Eigen storage is keyed by frame index: after k frames, entry i < k
   * holds the decomposition of frame i inside the mask the tracker holds
   * for frame i.
   */
  lemma {:induction false} FramesEigen(video: seq<Frame>, keypoints: seq<(real, real)>, boxes: seq<Box>, s: Settings, lib: Library, k: nat)
    requires k <= |video|
    requires Frames(video, keypoints, boxes, s, lib, k).Ok?
    ensures Tracked(video, keypoints, s.indent, boxes, lib.track, k).Ok?
    ensures StoredBy(video, Frames(video, keypoints, boxes, s, lib, k).value.rotation.eigen, Tracked(video, keypoints, s.indent, boxes, lib.track, k).value, lib, k)
    decreases k
  {
    if k > 0 {
      var previous: nat := k - 1;
      FramesAdvance(video, keypoints, boxes, s, lib, previous);
      FramesEigen(video, keypoints, boxes, s, lib, previous);
      FramesEigenStep(video, keypoints, boxes, s, lib, previous);
    } else {
      FramesTrack(video, keypoints, boxes, s, lib, k);
      assert StoredBy(video, Frames(video, keypoints, boxes, s, lib, k).value.rotation.eigen, [], lib, 0);
    }
  }

  /** The entries of the frames not reached yet are still numpy's zeros. */
  lemma {:induction false} FramesEigenUnwritten(video: seq<Frame>, keypoints: seq<(real, real)>, boxes: seq<Box>, s: Settings, lib: Library, k: nat)
    requires k <= |video|
    requires Frames(video, keypoints, boxes, s, lib, k).Ok?
    ensures var eigen := Frames(video, keypoints, boxes, s, lib, k).value.rotation.eigen;
      forall i :: k <= i < |video| ==> eigen[i] == Ssr.ZeroEigen()
    decreases k
  {
    if k > 0 {
      var previous: nat := k - 1;
      FramesStep(video, keypoints, boxes, s, lib, previous);
      FramesEigenUnwritten(video, keypoints, boxes, s, lib, previous);
    }
  }

  /** output_data sums to zero and holds zeros from sample k - 1 on. */
  ghost predicate ZeroMeanTail(output: seq<real>, k: nat)
  {
    Sum(output) == 0.0 && forall t :: 0 <= t < |output| && k <= t + 1 ==> output[t] == 0.0
  }

  /** A step of the rotation from counter k keeps the zero sum and leaves sample k and later ones alone. */
  lemma AdvancesKeepsZeroMean(st: Ssr.Rotation, stride: int, r: Result<Ssr.Rotation>, k: nat)
    requires st.counter == k && ZeroMeanTail(st.output, k) && r.Ok? && Ssr.Advances(st, stride, r)
    ensures ZeroMeanTail(r.value.output, k + 1)
  {
    forall t | 0 <= t < |r.value.output| && k + 1 <= t + 1 ensures r.value.output[t] == 0.0 {
      assert r.value.output[t] == st.output[t];
    }
  }

  /** A frame the loop gets through comes after one it got through, and advances the rotation state. */
  lemma FramesAdvance(video: seq<Frame>, keypoints: seq<(real, real)>, boxes: seq<Box>, s: Settings, lib: Library, k: nat)
    requires k < |video| && Frames(video, keypoints, boxes, s, lib, k + 1).Ok?
    ensures Frames(video, keypoints, boxes, s, lib, k).Ok?
    ensures Ssr.Advances(Frames(video, keypoints, boxes, s, lib, k).value.rotation, s.stride, Ok(Frames(video, keypoints, boxes, s, lib, k + 1).value.rotation))
  {
    FramesNext(video, keypoints, boxes, s, lib, k);
  }

  /** Every added chunk is zero-mean, so output_data sums to zero; the sample of the last frame, and every later one, is never written. */
  lemma {:induction false} FramesZeroMean(video: seq<Frame>, keypoints: seq<(real, real)>, boxes: seq<Box>, s: Settings, lib: Library, k: nat)
    requires k <= |video|
    requires Frames(video, keypoints, boxes, s, lib, k).Ok?
    ensures var output := Frames(video, keypoints, boxes, s, lib, k).value.rotation.output;
      Sum(output) == 0.0 && forall t :: 0 <= t < |output| && k <= t + 1 ==> output[t] == 0.0
    decreases k
  {
    if k == 0 {
      SumConstant(Zeros(|video|), 0.0);
      assert Frames(video, keypoints, boxes, s, lib, k).value.rotation.output == Zeros(|video|);
    } else {
      var previous: nat := k - 1;
      FramesAdvance(video, keypoints, boxes, s, lib, previous);
      FramesZeroMean(video, keypoints, boxes, s, lib, previous);
      var st := Frames(video, keypoints, boxes, s, lib, previous).value;
      var next := Frames(video, keypoints, boxes, s, lib, k).value;
      assert ZeroMeanTail(st.rotation.output, previous);
      AdvancesKeepsZeroMean(st.rotation, s.stride, Ok(next.rotation), previous);
      assert ZeroMeanTail(next.rotation.output, k);
    }
  }

  /** With no more frames than the stride nothing is ever added: output_data stays all zeros. */
  lemma {:induction false} FramesShortVideo(video: seq<Frame>, keypoints: seq<(real, real)>, boxes: seq<Box>, s: Settings, lib: Library, k: nat)
    requires k <= |video| && k <= s.stride
    requires Frames(video, keypoints, boxes, s, lib, k).Ok?
    ensures Frames(video, keypoints, boxes, s, lib, k).value.rotation.output == Zeros(|video|)
    decreases k
  {
    if k > 0 {
      var previous: nat := k - 1;
      FramesNext(video, keypoints, boxes, s, lib, previous);
      FramesShortVideo(video, keypoints, boxes, s, lib, previous);
    }
  }

  /** Frame i, in place on the eigen and output_data arrays; it returns the tracker's new state. */
  method VisitFrame(eigen: array<Eigen>, output: array<real>, track: Option<TrackState>,
                    video: seq<Frame>, keypoints: seq<(real, real)>, boxes: seq<Box>, s: Settings, lib: Library, i: nat)
    returns (r: Result<TrackState>)
    requires i < |video|
    requires Frames(video, keypoints, boxes, s, lib, i) == Ok(MaskLoop(track, Ssr.Rotation(i, eigen[..], output[..], [])))
    modifies eigen, output
    ensures r.Err? ==> Frames(video, keypoints, boxes, s, lib, i + 1) == Err(r.reason)
    ensures r.Ok? ==> Frames(video, keypoints, boxes, s, lib, i + 1) == Ok(MaskLoop(Some(r.value), Ssr.Rotation(i + 1, eigen[..], output[..], [])))
  {
    var st := MaskLoop(track, Ssr.Rotation(i, eigen[..], output[..], []));
    FramesNext(video, keypoints, boxes, s, lib, i);
    var m := MeasureFrame(st, video, i, keypoints, boxes, s, lib);
    if m.Err? {
      return Err(m.reason);
    }
    var failure := Ssr.AccumulateInPlace(eigen, output, i, st.rotation, m.value.eigen, [], s.stride, lib.track.sqrt, lib.std);
    if failure.Some? {
      return Err(failure.value);
    }
    r := Ok(m.value.track);
  }

  /** The loop over the frames of one video, on the eigen and output_data arrays. */
  method LoopFrames(eigen: array<Eigen>, output: array<real>, video: seq<Frame>, keypoints: seq<(real, real)>, boxes: seq<Box>, s: Settings, lib: Library)
    returns (r: Result<MaskLoop>)
    requires Frames(video, keypoints, boxes, s, lib, 0) == Ok(MaskLoop(None, Ssr.Rotation(0, eigen[..], output[..], [])))
    modifies eigen, output
    ensures r == Frames(video, keypoints, boxes, s, lib, |video|)
  {
    var track: Option<TrackState> := None;
    for i := 0 to |video|
      invariant Frames(video, keypoints, boxes, s, lib, i) == Ok(MaskLoop(track, Ssr.Rotation(i, eigen[..], output[..], [])))
    {
      var visited := VisitFrame(eigen, output, track, video, keypoints, boxes, s, lib, i);
      if visited.Err? {
        FramesStop(video, keypoints, boxes, s, lib, i + 1, |video|);
        return Err(visited.reason);
      }
      track := Some(visited.value);
    }
    r := Ok(MaskLoop(track, Ssr.Rotation(|video|, eigen[..], output[..], [])));
  }

  /** Lines 171-272: output_data, eigenvalues and eigenvectors start as zeros, then the loop runs over every frame. */
  method MaskRotationLoop(video: seq<Frame>, keypoints: seq<(real, real)>, boxes: seq<Box>, s: Settings, lib: Library) returns (r: Result<MaskLoop>)
    ensures r == Frames(video, keypoints, boxes, s, lib, |video|)
  {
    var eigen := new Eigen[|video|](_ => Ssr.ZeroEigen());
    var output := new real[|video|](_ => 0.0);
    assert eigen[..] == Initial(|video|).rotation.eigen && output[..] == Initial(|video|).rotation.output;
    r := LoopFrames(eigen, output, video, keypoints, boxes, s, lib);
  }

  // ---------------------------------------------------------------------
  // One object and the script (lines 158-288)

  /** One database object: does the output exist, the frames, the stored face boxes and the DRMF keypoints of frame 0. */
  datatype MaskObject = MaskObject(outputExists: bool, video: seq<Frame>, boxes: seq<Box>, keypoints: seq<(real, real)>)

  /** The body of the loop over objects, or the exception it raises. */
  function Process(obj: MaskObject, s: Settings, lib: Library): (r: Result<Outcome<seq<real>>>)
    ensures obj.outputExists && !s.overwrite ==> r == Ok(Skipped("already exists"))
    ensures r.Ok? && r.value.Saved? ==> |r.value.data| == |obj.video|
  {
    if obj.outputExists && !s.overwrite then Ok(Skipped("already exists"))
    else match Frames(obj.video, obj.keypoints, obj.boxes, s, lib, |obj.video|)
      case Err(e) => Err(e)
      case Ok(st) => Ok(Saved(st.rotation.output))
  }

  /** The pulse saved for an object sums to zero, and it is all zeros when the video has no more frames than the stride. */
  lemma ProcessSaved(obj: MaskObject, s: Settings, lib: Library)
    requires Process(obj, s, lib).Ok? && Process(obj, s, lib).value.Saved?
    ensures Sum(Process(obj, s, lib).value.data) == 0.0
    ensures |obj.video| <= s.stride ==> Process(obj, s, lib).value.data == Zeros(|obj.video|)
  {
    FramesZeroMean(obj.video, obj.keypoints, obj.boxes, s, lib, |obj.video|);
    if |obj.video| <= s.stride {
      FramesShortVideo(obj.video, obj.keypoints, obj.boxes, s, lib, |obj.video|);
    }
  }

  /** One object, imperatively. */
  method ProcessObject(obj: MaskObject, s: Settings, lib: Library) returns (r: Result<Outcome<seq<real>>>)
    ensures r == Process(obj, s, lib)
  {
    if obj.outputExists && !s.overwrite {
      return Ok(Skipped("already exists"));
    }
    var loop := MaskRotationLoop(obj.video, obj.keypoints, obj.boxes, s, lib);
    if loop.Err? {
      return Err(loop.reason);
    }
    return Ok(Saved(loop.value.rotation.output));
  }

  /** The whole script: every object in turn until one raises. */
  method SsrFromMaskScript(objects: seq<MaskObject>, s: Settings, lib: Library)
    returns (outcomes: seq<Outcome<seq<real>>>, failure: Option<string>)
    ensures (outcomes, failure) == Run(objects, (obj: MaskObject) => Process(obj, s, lib))
  {
    var process := (obj: MaskObject) => Process(obj, s, lib);
    outcomes, failure := [], None;
    for k := 0 to |objects|
      invariant |outcomes| == k
      invariant forall i :: 0 <= i < k ==> process(objects[i]) == Ok(outcomes[i])
    {
      var outcome := ProcessObject(objects[k], s, lib);
      if outcome.Err? {
        failure := Some(outcome.reason);
        RunStopsAt(objects, process, outcomes);
        return;
      }
      outcomes := outcomes + [outcome.value];
    }
    RunStopsAt(objects, process, outcomes);
  }
}
