/*
 * bob/rppg/cvpr14/script/extract_signals.py: the two green signals of Li et
 * al. (CVPR 2014).  For every video, frame i gives face[i], the mean green
 * inside the face region, and background[i], the mean green over the
 * top-left 100 x 100 block of the frame.  The face region is either the
 * mask the tracker carries from frame to frame, or (--wholeface) the whole
 * face crop, cut with the bounding box of the previous frame and the face
 * width of frame 0.  A mean over no pixel is NaN: None here.
 */
module ExtractSignals {
  import opened Numerics
  import opened BaseUtils
  import opened Cvpr14Utils
  import opened Tracker
  import opened Scripts
  import ChromUtils

  /** The library calls of the script. */
  datatype Library = Library(track: Oracles, contains: Contains)

  /** The command-line settings that reach the computation. */
  datatype Settings = Settings(overwrite: bool, wholeface: bool, indent: int, gridcount: bool)

  /** The two signals saved for a video, one value per frame each. */
  datatype Signals = Signals(face: seq<Option<real>>, background: seq<Option<real>>)

  // ---------------------------------------------------------------------
  // The background (lines 254-256)

  /** bg_mask: an h x w mask whose true cells are rows 0..99, columns 0..99. */
  function BackgroundMask(h: nat, w: nat): (m: Mask)
    ensures IsGrid(m, h, w)
    ensures forall y, x :: 0 <= y < h && 0 <= x < w ==> (m[y][x] <==> y < 100 && x < 100)
  {
    seq(h, y requires 0 <= y < h => seq(w, x requires 0 <= x < w => y < 100 && x < 100))
  }

  /** The background block of a frame with at least one pixel holds a pixel. */
  lemma BackgroundMaskCounts(h: nat, w: nat)
    requires h > 0 && w > 0
    ensures CountTrue(BackgroundMask(h, w)) > 0
  {
    var mask := BackgroundMask(h, w);
    assert |mask[0]| == w;
    CountTrueSome(mask, 0, 0);
  }

  /** The mean green of a frame over its background block. */
  function Background(frame: Frame): (g: Option<real>)
  {
    AverageGreenMask(frame, BackgroundMask(|frame[0]|, |frame[0][0]|))
  }

  /** The background value is NaN only for a frame zero pixels wide: every other frame has a pixel in the block. */
  lemma BackgroundDefined(frame: Frame)
    ensures Background(frame).Some? <==> |frame[0][0]| > 0
  {
    assert HasFrameShape(frame);
    if |frame[0][0]| > 0 {
      BackgroundMaskCounts(|frame[0]|, |frame[0][0]|);
    } else {
      CountTrueNone(BackgroundMask(|frame[0]|, 0));
    }
  }

  // ---------------------------------------------------------------------
  // Mask mode (lines 181-256 without --wholeface)

  /** Lines 248-249: the mean green inside the mask drawn from the current mask points. */
  function MaskGreen(frame: Frame, maskPoints: MaskPolygon, contains: Contains): (g: Option<real>)
    ensures g.None? <==> CountTrue(GetMask(frame, maskPoints, contains)) == 0
    ensures g.Some? ==> var mask := GetMask(frame, maskPoints, contains);
      Fits(frame, mask) && ChromUtils.MeanOver(g.value, frame, mask, 1)
  {
    FrameFitsMask(frame, maskPoints, contains);
    AverageGreenMask(frame, GetMask(frame, maskPoints, contains))
  }

  /** The work of the frame loop on frame i once the tracker has moved the mask. */
  function ColorsOf(contains: Contains): (f: PerFrame<(Option<real>, Option<real>)>)
  {
    (frame: Frame, maskPoints: MaskPolygon) => Ok((MaskGreen(frame, maskPoints, contains), Background(frame)))
  }

  /** face_color and bg_color out of the per-frame pairs. */
  function Unzip(pairs: seq<(Option<real>, Option<real>)>): (s: Signals)
    ensures |s.face| == |pairs| == |s.background|
    ensures forall i :: 0 <= i < |pairs| ==> s.face[i] == pairs[i].0 && s.background[i] == pairs[i].1
  {
    Signals(seq(|pairs|, i requires 0 <= i < |pairs| => pairs[i].0), seq(|pairs|, i requires 0 <= i < |pairs| => pairs[i].1))
  }

  /** The signals of a video in mask mode, or the exception that stopped the frame loop. */
  function MaskSignals(video: seq<Frame>, keypoints: seq<(real, real)>, indent: int, boxes: seq<Box>, lib: Library): (r: Result<Signals>)
    ensures r.Ok? ==> |r.value.face| == |video| == |r.value.background|
  {
    match TrackedWith(video, keypoints, indent, boxes, lib.track, ColorsOf(lib.contains), |video|)
    case Err(e) => Err(e)
    case Ok(t) => Ok(Unzip(t.values))
  }

  /**
   * The loop fails exactly when the tracker does, with the tracker's
   * exception; otherwise face[i] is the mean green inside the mask the
   * tracker holds after frame i and background[i] that of frame i's block.
   */
  lemma MaskSignalsFollowTracker(video: seq<Frame>, keypoints: seq<(real, real)>, indent: int, boxes: seq<Box>, lib: Library)
    ensures MaskSignals(video, keypoints, indent, boxes, lib).Ok? <==> Tracked(video, keypoints, indent, boxes, lib.track, |video|).Ok?
    ensures MaskSignals(video, keypoints, indent, boxes, lib).Err? ==>
      MaskSignals(video, keypoints, indent, boxes, lib) == Err(Tracked(video, keypoints, indent, boxes, lib.track, |video|).reason)
    ensures MaskSignals(video, keypoints, indent, boxes, lib).Ok? ==>
      var states := Tracked(video, keypoints, indent, boxes, lib.track, |video|).value;
      var s := MaskSignals(video, keypoints, indent, boxes, lib).value;
      forall i :: 0 <= i < |video| ==>
        s.face[i] == MaskGreen(video[i], states[i].maskPoints, lib.contains) && s.background[i] == Background(video[i])
  {
    var f := ColorsOf(lib.contains);
    TrackedWithTotal(video, keypoints, indent, boxes, lib.track, f, |video|);
    if TrackedWith(video, keypoints, indent, boxes, lib.track, f, |video|).Ok? {
      TrackedWithTracks(video, keypoints, indent, boxes, lib.track, f, |video|);
    }
  }

  /** The frame loop in mask mode: the tracker's variables carried from frame to frame, both values written per frame. */
  method ExtractMaskSignals(video: seq<Frame>, keypoints: seq<(real, real)>, indent: int, boxes: seq<Box>, lib: Library)
    returns (r: Result<Signals>)
    ensures r == MaskSignals(video, keypoints, indent, boxes, lib)
  {
    var pairs := TrackVideo(video, keypoints, indent, boxes, lib.track, ColorsOf(lib.contains), (None, None));
    if pairs.Err? {
      return Err(pairs.reason);
    }
    return Ok(Unzip(pairs.value));
  }

  // ---------------------------------------------------------------------
  // Whole-face mode (lines 181-256 with --wholeface)

  /** compute_average_colors_wholeface of a crop; a crop without three channels has no green plane and gives None. */
  function WholeFaceGreen(face: Image): (g: Option<real>)
    ensures |face| == 3 ==> g == AverageGreenWholeFace(face)
    ensures |face| != 3 ==> g.None?
  {
    if |face| == 3 then AverageGreenWholeFace(face) else None
  }

  /** The box frame i is cropped with: that of frame 0 for frame 0, that of the previous frame afterwards. */
  function CropBox(boxes: seq<Box>, i: nat): Box
    requires i < |boxes|
  {
    boxes[if i == 0 then 0 else i - 1]
  }

  /**
   * The signals of a video in whole-face mode: frame i needs boxes[i] (line
   * 236), so a video with more frames than boxes raises IndexError; the face
   * width is that of the first box for the whole video.
   */
  function WholeFaceSignals(video: seq<Frame>, boxes: seq<Box>, crop: Crop): (r: Result<Signals>)
    ensures r.Err? <==> |video| > |boxes|
    ensures r.Err? ==> r.reason == "list index out of range"
    ensures r.Ok? ==> |r.value.face| == |video| == |r.value.background|
  {
    if |video| > |boxes| then Err("list index out of range")
    else Ok(Signals(
      seq(|video|, i requires 0 <= i < |video| => WholeFaceGreen(crop(video[i], CropBox(boxes, i), boxes[0].width))),
      seq(|video|, i requires 0 <= i < |video| => Background(video[i]))))
  }

  /**
   * Whole-face mode reads no keypoint and runs no tracker: the face value of
   * frame i depends only on that frame, the previous box and the first box.
   */
  lemma WholeFaceIsLocal(video: seq<Frame>, other: seq<Frame>, boxes: seq<Box>, crop: Crop, i: nat)
    requires |video| == |other| <= |boxes| && i < |video| && video[i] == other[i]
    ensures WholeFaceSignals(video, boxes, crop).value.face[i] == WholeFaceSignals(other, boxes, crop).value.face[i]
    ensures WholeFaceSignals(video, boxes, crop).value.background[i] == WholeFaceSignals(other, boxes, crop).value.background[i]
  {
  }

  /** The first n values of both signals are those of the whole-face mode. */
  ghost predicate FilledUpTo(face: seq<Option<real>>, background: seq<Option<real>>, video: seq<Frame>, boxes: seq<Box>, crop: Crop, n: nat)
  {
    n <= |face| && n <= |background| && n <= |video| && (n > 0 ==> n <= |boxes|) &&
    (forall t :: 0 <= t < n ==> face[t] == WholeFaceGreen(crop(video[t], CropBox(boxes, t), boxes[0].width))) &&
    (forall t :: 0 <= t < n ==> background[t] == Background(video[t]))
  }

  /** Arrays filled frame by frame hold the whole-face signals. */
  lemma WholeFaceFilled(face: seq<Option<real>>, background: seq<Option<real>>, video: seq<Frame>, boxes: seq<Box>, crop: Crop)
    requires |face| == |video| == |background| && FilledUpTo(face, background, video, boxes, crop, |video|)
    ensures WholeFaceSignals(video, boxes, crop) == Ok(Signals(face, background))
  {
    var s := WholeFaceSignals(video, boxes, crop).value;
    assert s.face == face;
    assert s.background == background;
  }

  /** Lines 250-256 for frame i: face_color[i] from the crop, then bg_color[i]. */
  method StoreColors(face: array<Option<real>>, background: array<Option<real>>, video: seq<Frame>, boxes: seq<Box>, crop: Crop, image: Image, i: nat)
    requires face != background && face.Length == |video| == background.Length && i < |video| && i < |boxes|
    requires image == crop(video[i], CropBox(boxes, i), boxes[0].width)
    requires FilledUpTo(face[..], background[..], video, boxes, crop, i)
    modifies face, background
    ensures FilledUpTo(face[..], background[..], video, boxes, crop, i + 1)
  {
    face[i] := WholeFaceGreen(image);
    background[i] := Background(video[i]);
  }

  /** The frame loop in whole-face mode, with its variables bbox, facewidth and prev_bb. */
  method ExtractWholeFaceSignals(video: seq<Frame>, boxes: seq<Box>, crop: Crop) returns (r: Result<Signals>)
    ensures r == WholeFaceSignals(video, boxes, crop)
  {
    var face := new Option<real>[|video|](_ => None);
    var background := new Option<real>[|video|](_ => None);
    var facewidth: nat := 0;
    var previous: Box := BoundingBox(0, 0, 1, 1, 0.0);
    for i := 0 to |video|
      invariant i > 0 ==> i <= |boxes| && facewidth == boxes[0].width && previous == boxes[i - 1]
      invariant FilledUpTo(face[..], background[..], video, boxes, crop, i)
    {
      var image: Image;
      if i == 0 {
        if |boxes| == 0 {
          return Err("list index out of range");
        }
        facewidth := boxes[0].width;
        image := crop(video[0], boxes[0], facewidth);
      } else {
        image := crop(video[i], previous, facewidth);
      }
      if i >= |boxes| {
        return Err("list index out of range");
      }
      previous := boxes[i];
      StoreColors(face, background, video, boxes, crop, image, i);
    }
    WholeFaceFilled(face[..], background[..], video, boxes, crop);
    return Ok(Signals(face[..], background[..]));
  }

  // ---------------------------------------------------------------------
  // The loop over objects (lines 159-266)

  /** One database object: do the two outputs exist, the frames, the stored face boxes and the DRMF keypoints of frame 0. */
  datatype SignalObject = SignalObject(faceExists: bool, backgroundExists: bool, video: seq<Frame>, boxes: seq<Box>, keypoints: seq<(real, real)>)

  /** The signals of one video in the mode the settings choose. */
  function VideoSignals(obj: SignalObject, settings: Settings, lib: Library): (r: Result<Signals>)
    ensures r.Ok? ==> |r.value.face| == |obj.video| == |r.value.background|
  {
    if settings.wholeface then WholeFaceSignals(obj.video, obj.boxes, lib.track.crop)
    else MaskSignals(obj.video, obj.keypoints, settings.indent, obj.boxes, lib)
  }

  /** The body of the loop over objects: an object is skipped only when both outputs exist and --overwrite is off. */
  function Process(obj: SignalObject, settings: Settings, lib: Library): (r: Result<Outcome<Signals>>)
    ensures r == Ok(Skipped("already exists")) <==> obj.faceExists && obj.backgroundExists && !settings.overwrite
    ensures r.Ok? && r.value.Saved? ==> |r.value.data.face| == |obj.video| == |r.value.data.background|
  {
    if obj.faceExists && obj.backgroundExists && !settings.overwrite then Ok(Skipped("already exists"))
    else match VideoSignals(obj, settings, lib)
      case Err(e) => Err(e)
      case Ok(s) => Ok(Saved(s))
  }

  /** Every saved object has a background value for every frame, NaN only for a frame zero pixels wide. */
  lemma ProcessSavesBackground(obj: SignalObject, settings: Settings, lib: Library)
    requires Process(obj, settings, lib).Ok? && Process(obj, settings, lib).value.Saved?
    ensures var s := Process(obj, settings, lib).value.data;
      forall i :: 0 <= i < |obj.video| ==> s.background[i] == Background(obj.video[i])
    ensures var s := Process(obj, settings, lib).value.data;
      forall i :: 0 <= i < |obj.video| ==> (s.background[i].Some? <==> |obj.video[i][0][0]| > 0)
  {
    var s := Process(obj, settings, lib).value.data;
    if !settings.wholeface {
      MaskSignalsFollowTracker(obj.video, obj.keypoints, settings.indent, obj.boxes, lib);
    }
    assert forall i :: 0 <= i < |obj.video| ==> s.background[i] == Background(obj.video[i]);
    forall i | 0 <= i < |obj.video| ensures s.background[i].Some? <==> |obj.video[i][0][0]| > 0 {
      BackgroundDefined(obj.video[i]);
    }
  }

  /**
   * The face values of a saved object: in whole-face mode the whole-face
   * means of the crops, in mask mode the mean inside the mask the tracker
   * holds for each frame.
   */
  lemma ProcessSavesFace(obj: SignalObject, settings: Settings, lib: Library)
    requires Process(obj, settings, lib).Ok? && Process(obj, settings, lib).value.Saved?
    ensures settings.wholeface ==> |obj.video| <= |obj.boxes|
    ensures settings.wholeface ==> var s := Process(obj, settings, lib).value.data;
      forall i :: 0 <= i < |obj.video| ==>
        s.face[i] == WholeFaceGreen(lib.track.crop(obj.video[i], CropBox(obj.boxes, i), obj.boxes[0].width))
    ensures !settings.wholeface ==> Tracked(obj.video, obj.keypoints, settings.indent, obj.boxes, lib.track, |obj.video|).Ok?
    ensures !settings.wholeface ==>
      var states := Tracked(obj.video, obj.keypoints, settings.indent, obj.boxes, lib.track, |obj.video|).value;
      var s := Process(obj, settings, lib).value.data;
      forall i :: 0 <= i < |obj.video| ==> s.face[i] == MaskGreen(obj.video[i], states[i].maskPoints, lib.contains)
  {
    if !settings.wholeface {
      MaskSignalsFollowTracker(obj.video, obj.keypoints, settings.indent, obj.boxes, lib);
    }
  }

  /** One object, imperatively. */
  method ProcessObject(obj: SignalObject, settings: Settings, lib: Library) returns (r: Result<Outcome<Signals>>)
    ensures r == Process(obj, settings, lib)
  {
    if obj.faceExists && obj.backgroundExists && !settings.overwrite {
      return Ok(Skipped("already exists"));
    }
    var signals: Result<Signals>;
    if settings.wholeface {
      signals := ExtractWholeFaceSignals(obj.video, obj.boxes, lib.track.crop);
    } else {
      signals := ExtractMaskSignals(obj.video, obj.keypoints, settings.indent, obj.boxes, lib);
    }
    if signals.Err? {
      return Err(signals.reason);
    }
    return Ok(Saved(signals.value));
  }

  /** The whole script: --gridcount prints the number of objects and exits (lines 151-153); otherwise every object until one raises. */
  function Script(objects: seq<SignalObject>, settings: Settings, lib: Library): (r: (seq<Outcome<Signals>>, Option<string>))
    ensures settings.gridcount ==> r == ([], None)
    ensures !settings.gridcount ==> r == Run(objects, (obj: SignalObject) => Process(obj, settings, lib))
  {
    if settings.gridcount then ([], None)
    else Run(objects, (obj: SignalObject) => Process(obj, settings, lib))
  }

  method ExtractSignalsScript(objects: seq<SignalObject>, settings: Settings, lib: Library)
    returns (outcomes: seq<Outcome<Signals>>, failure: Option<string>)
    ensures (outcomes, failure) == Script(objects, settings, lib)
  {
    if settings.gridcount {
      return [], None;
    }
    var process := (obj: SignalObject) => Process(obj, settings, lib);
    outcomes, failure := [], None;
    for k := 0 to |objects|
      invariant |outcomes| == k
      invariant forall i :: 0 <= i < k ==> process(objects[i]) == Ok(outcomes[i])
    {
      var outcome := ProcessObject(objects[k], settings, lib);
      if outcome.Err? {
        failure := Some(outcome.reason);
        RunStopsAt(objects, process, outcomes);
        return;
      }
      outcomes := outcomes + [outcome.value];
    }
    RunStopsAt(objects, process, outcomes);
  }
}
