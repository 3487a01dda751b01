/*
 * bob/rppg/chrom/script/extract_pulse_from_mask.py: CHROM on the pixels of
 * a tracked face mask.  For every video, frame i gives chrom[i], the
 * chrominance of the mean colour inside the mask the tracker holds for
 * that frame; the two chrominance signals are then band-passed and
 * combined into the pulse as in the skin-based script.  A frame whose mask
 * is empty gives NaN, which filtfilt spreads over the whole signal: the
 * pulse saved is then NaN everywhere (None here).
 */
module ExtractPulseFromMask {
  import opened Numerics
  import opened BaseUtils
  import opened ChromUtils
  import opened Cvpr14Utils
  import opened Tracker
  import opened PulseCombination
  import opened Scripts

  /** The library calls of the script. */
  datatype Library = Library(track: Oracles, contains: Contains, filtfilt: Filtfilt, std: StdDev, hann: Hanning)

  /** The command-line settings that reach the computation. */
  datatype Settings = Settings(overwrite: bool, indent: int, window: int)

  /** Lines 257-260: the chrominance of the mean colour inside the mask; NaN (None) when the mask is empty. */
  function MaskChroma(frame: Frame, maskPoints: MaskPolygon, contains: Contains): (c: Option<Chroma>)
    ensures c.None? <==> CountTrue(GetMask(frame, maskPoints, contains)) == 0
  {
    FrameFitsMask(frame, maskPoints, contains);
    match MeanRgb(frame, GetMask(frame, maskPoints, contains))
    case None => None
    case Some(m) => Some(ProjectChrominance(m.r, m.g, m.b))
  }

  /** Only the pixels inside the mask count: two frames of one size that agree there give the same chrominance. */
  lemma MaskChromaIgnoresUnmasked(a: Frame, b: Frame, maskPoints: MaskPolygon, contains: Contains)
    requires |a[0]| == |b[0]| && |a[0][0]| == |b[0][0]|
    requires var mask := GetMask(a, maskPoints, contains);
      forall c, i, k :: 0 <= c < 3 && 0 <= i < |mask| && 0 <= k < |mask[i]| && mask[i][k] ==> a[c][i][k] == b[c][i][k]
    ensures MaskChroma(a, maskPoints, contains) == MaskChroma(b, maskPoints, contains)
  {
    var mask := GetMask(a, maskPoints, contains);
    var other := GetMask(b, maskPoints, contains);
    assert mask == other by {
      assert |mask| == |other|;
      forall y | 0 <= y < |mask| ensures mask[y] == other[y] {
        assert |mask[y]| == |other[y]|;
      }
    }
    FrameFitsMask(a, maskPoints, contains);
    FrameFitsMask(b, maskPoints, contains);
    MeanRgbIgnoresUnmasked(a, b, mask);
  }

  /** The work of the frame loop on frame i once the tracker has moved the mask (lines 248-260). */
  function ChromaOf(contains: Contains): (f: PerFrame<Option<Chroma>>)
  {
    (frame: Frame, maskPoints: MaskPolygon) => Ok(MaskChroma(frame, maskPoints, contains))
  }

  /** The chrominance rows of a video (the frame loop, lines 188-260), or the exception that stopped the loop. */
  function Chrominance(video: seq<Frame>, keypoints: seq<(real, real)>, indent: int, boxes: seq<Box>, lib: Library): (r: Result<seq<Option<Chroma>>>)
    ensures r.Ok? ==> |r.value| == |video|
  {
    match TrackedWith(video, keypoints, indent, boxes, lib.track, ChromaOf(lib.contains), |video|)
    case Err(e) => Err(e)
    case Ok(t) => Ok(t.values)
  }

  /**
   * The loop fails exactly when the tracker does, and chrom[i], indexed by
   * frame, is the chrominance of frame i inside the mask the tracker holds
   * after frame i, with no fallback for an empty mask.
   */
  lemma ChrominanceFollowsTracker(video: seq<Frame>, keypoints: seq<(real, real)>, indent: int, boxes: seq<Box>, lib: Library)
    ensures Chrominance(video, keypoints, indent, boxes, lib).Ok? <==> Tracked(video, keypoints, indent, boxes, lib.track, |video|).Ok?
    ensures Chrominance(video, keypoints, indent, boxes, lib).Err? ==>
      Chrominance(video, keypoints, indent, boxes, lib) == Err(Tracked(video, keypoints, indent, boxes, lib.track, |video|).reason)
    ensures Chrominance(video, keypoints, indent, boxes, lib).Ok? ==>
      var states := Tracked(video, keypoints, indent, boxes, lib.track, |video|).value;
      forall i :: 0 <= i < |video| ==> Chrominance(video, keypoints, indent, boxes, lib).value[i] == MaskChroma(video[i], states[i].maskPoints, lib.contains)
  {
    var f := ChromaOf(lib.contains);
    TrackedWithTotal(video, keypoints, indent, boxes, lib.track, f, |video|);
    if TrackedWith(video, keypoints, indent, boxes, lib.track, f, |video|).Ok? {
      TrackedWithTracks(video, keypoints, indent, boxes, lib.track, f, |video|);
    }
  }

  /** The frame loop: the tracker's variables carried from frame to frame, and chrom written row by row. */
  method ExtractChrominance(video: seq<Frame>, keypoints: seq<(real, real)>, indent: int, boxes: seq<Box>, lib: Library)
    returns (r: Result<seq<Option<Chroma>>>)
    ensures r == Chrominance(video, keypoints, indent, boxes, lib)
  {
    r := TrackVideo(video, keypoints, indent, boxes, lib.track, ChromaOf(lib.contains), Some(Chroma(0.0, 0.0)));
  }

  /** chrom[:, 0] and chrom[:, 1], with 0 standing for a NaN row. */
  function Column(chrom: seq<Option<Chroma>>, first: bool): (s: seq<real>)
    ensures |s| == |chrom|
    ensures forall i :: 0 <= i < |chrom| && chrom[i].Some? ==> s[i] == if first then chrom[i].value.x else chrom[i].value.y
  {
    seq(|chrom|, i requires 0 <= i < |chrom| => if chrom[i].None? then 0.0 else if first then chrom[i].value.x else chrom[i].value.y)
  }

  /** Some row of chrom is NaN. */
  predicate HasNaN(chrom: seq<Option<Chroma>>)
  {
    exists i :: 0 <= i < |chrom| && chrom[i].None?
  }

  /**
   * Lines 263-294: the pulse of the chrominance rows.  The exceptions do not
   * depend on the values (the padding check and the window), so a NaN row
   * changes only the pulse, which is then NaN (None).
   */
  function MaskPulse(chrom: seq<Option<Chroma>>, taps: seq<real>, window: int, lib: Library): (r: Result<Option<seq<real>>>)
    ensures r.Err? <==> |chrom| <= PadLength(taps) || window == 1
    ensures r.Ok? ==> (r.value.None? <==> HasNaN(chrom))
    ensures r.Ok? && r.value.Some? ==> |r.value.value| == |chrom|
  {
    match Bandpassed(Column(chrom, true), Column(chrom, false), taps, window, lib.filtfilt, lib.std, lib.hann)
    case Err(e) => Err(e)
    case Ok(p) => if HasNaN(chrom) then Ok(None) else Ok(Some(p))
  }

  /** Without NaN rows the pulse is the combination of the band-passed chrominance columns. */
  lemma MaskPulseOfNumbers(chrom: seq<Option<Chroma>>, taps: seq<real>, window: int, lib: Library)
    requires forall i :: 0 <= i < |chrom| ==> chrom[i].Some?
    requires |chrom| > PadLength(taps) && window != 1
    ensures var x := seq(|chrom|, i requires 0 <= i < |chrom| => chrom[i].value.x);
      var y := seq(|chrom|, i requires 0 <= i < |chrom| => chrom[i].value.y);
      MaskPulse(chrom, taps, window, lib) == Ok(Some(FinalPulse(FiltFilt(lib.filtfilt, taps, x), FiltFilt(lib.filtfilt, taps, y), window, lib.std, lib.hann)))
  {
    var x := seq(|chrom|, i requires 0 <= i < |chrom| => chrom[i].value.x);
    var y := seq(|chrom|, i requires 0 <= i < |chrom| => chrom[i].value.y);
    assert Column(chrom, true) == x;
    assert Column(chrom, false) == y;
  }

  /** One database object: does the output exist, the frames, the stored face boxes and the DRMF keypoints of frame 0. */
  datatype MaskObject = MaskObject(outputExists: bool, video: seq<Frame>, boxes: seq<Box>, keypoints: seq<(real, real)>)

  /** The body of the loop over objects (lines 162-294). */
  function Process(obj: MaskObject, settings: Settings, taps: seq<real>, lib: Library): (r: Result<Outcome<Option<seq<real>>>>)
    ensures obj.outputExists && !settings.overwrite ==> r == Ok(Skipped("already exists"))
    ensures r.Ok? && r.value.Saved? ==>
      Chrominance(obj.video, obj.keypoints, settings.indent, obj.boxes, lib).Ok? &&
      MaskPulse(Chrominance(obj.video, obj.keypoints, settings.indent, obj.boxes, lib).value, taps, settings.window, lib) == Ok(r.value.data)
  {
    if obj.outputExists && !settings.overwrite then Ok(Skipped("already exists"))
    else match Chrominance(obj.video, obj.keypoints, settings.indent, obj.boxes, lib)
      case Err(e) => Err(e)
      case Ok(chrom) =>
        match MaskPulse(chrom, taps, settings.window, lib)
        case Err(e) => Err(e)
        case Ok(pulse) => Ok(Saved(pulse))
  }

  /** One object, imperatively: the frame loop, then the band-pass and the overlap-add. */
  method ProcessObject(obj: MaskObject, settings: Settings, taps: seq<real>, lib: Library) returns (r: Result<Outcome<Option<seq<real>>>>)
    ensures r == Process(obj, settings, taps, lib)
  {
    if obj.outputExists && !settings.overwrite {
      return Ok(Skipped("already exists"));
    }
    var chrom := ExtractChrominance(obj.video, obj.keypoints, settings.indent, obj.boxes, lib);
    if chrom.Err? {
      return Err(chrom.reason);
    }
    var pulse := BandpassAndCombine(Column(chrom.value, true), Column(chrom.value, false), taps, settings.window, lib.filtfilt, lib.std, lib.hann);
    if pulse.Err? {
      return Err(pulse.reason);
    }
    if HasNaN(chrom.value) {
      return Ok(Saved(None));
    }
    return Ok(Saved(Some(pulse.value)));
  }

  /** The whole script: the filter is built once (line 158), then every object in turn until one raises. */
  function Script(objects: seq<MaskObject>, settings: Settings, framerate: real, order: int, firwin: Firwin, lib: Library)
    : (r: (seq<Outcome<Option<seq<real>>>>, Option<string>))
  {
    match BuildBandpassFilter(framerate, order, firwin)
    case Err(e) => ([], Some(e))
    case Ok(taps) => Run(objects, (obj: MaskObject) => Process(obj, settings, taps, lib))
  }

  method ExtractPulseFromMaskScript(objects: seq<MaskObject>, settings: Settings, framerate: real, order: int, firwin: Firwin, lib: Library)
    returns (outcomes: seq<Outcome<Option<seq<real>>>>, failure: Option<string>)
    ensures (outcomes, failure) == Script(objects, settings, framerate, order, firwin, lib)
  {
    var filter := BuildBandpassFilter(framerate, order, firwin);
    if filter.Err? {
      return [], Some(filter.reason);
    }
    var process := (obj: MaskObject) => Process(obj, settings, filter.value, lib);
    outcomes, failure := [], None;
    for k := 0 to |objects|
      invariant |outcomes| == k
      invariant forall i :: 0 <= i < k ==> process(objects[i]) == Ok(outcomes[i])
    {
      var outcome := ProcessObject(objects[k], settings, filter.value, lib);
      if outcome.Err? {
        failure := Some(outcome.reason);
        RunStopsAt(objects, process, outcomes);
        return;
      }
      outcomes := outcomes + [outcome.value];
    }
    RunStopsAt(objects, process, outcomes);
  }
}
