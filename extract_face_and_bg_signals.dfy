/*
 * bob/rppg/cvpr14/script/extract_face_and_bg_signals.py: the configuration
 * driven version of extract_signals.py.  The database and the parameters
 * come from a configuration file; the frame loop is the same, except that
 * the face value (mask mode) and the background value index [1] into the
 * result of compute_average_colors_mask, which is a numpy scalar.  Indexing
 * a scalar raises IndexError, so as written the loop stops at frame 0 of
 * every video it processes.  The model states that behaviour, and the
 * script as evidently intended: the loop of extract_signals.py, run on the
 * configuration's objects.
 */
module ExtractFaceAndBgSignals {
  import opened Numerics
  import opened BaseUtils
  import opened Cvpr14Utils
  import opened Tracker
  import opened Scripts
  import ES = ExtractSignals

  /** The configuration file: its database, if it has one, and the parameters read from it. */
  datatype Configuration = Configuration(database: Option<seq<ES.SignalObject>>, settings: ES.Settings)

  /** The message of the IndexError numpy raises when a scalar is indexed. */
  const ScalarIndexError := "invalid index to scalar variable."

  /** `value[1]` on the float64 compute_average_colors_mask returns, NaN included: it always raises. */
  function IndexScalar(value: Option<real>): (r: Result<real>)
    ensures r == Err(ScalarIndexError)
  {
    Err(ScalarIndexError)
  }

  // ---------------------------------------------------------------------
  // The frame loop as written (lines 168-242)

  /** Lines 233-242 in mask mode: face_color[i], then bg_color[i], each through `[1]`. */
  function ColorsAsWritten(contains: Contains): (f: PerFrame<(real, real)>)
  {
    (frame: Frame, maskPoints: MaskPolygon) =>
      match IndexScalar(ES.MaskGreen(frame, maskPoints, contains))
      case Err(e) => Err(e)
      case Ok(g) =>
        match IndexScalar(ES.Background(frame))
        case Err(e) => Err(e)
        case Ok(b) => Ok((g, b))
  }

  /** The two signals of the per-frame pairs. */
  function Columns(pairs: seq<(real, real)>): (s: ES.Signals)
    ensures |s.face| == |pairs| == |s.background|
  {
    ES.Signals(seq(|pairs|, i requires 0 <= i < |pairs| => Some(pairs[i].0)), seq(|pairs|, i requires 0 <= i < |pairs| => Some(pairs[i].1)))
  }

  /** The mask-mode loop as written: the tracker, then the work of lines 233-242 on every frame. */
  function MaskSignalsAsWritten(video: seq<Frame>, keypoints: seq<(real, real)>, indent: int, boxes: seq<Box>, lib: ES.Library): (r: Result<ES.Signals>)
    ensures r.Ok? ==> |r.value.face| == |video|
  {
    match TrackedWith(video, keypoints, indent, boxes, lib.track, ColorsAsWritten(lib.contains), |video|)
    case Err(e) => Err(e)
    case Ok(t) => Ok(Columns(t.values))
  }

  /**
   * The whole-face loop as written: frame 0 needs boxes[0] (line 183); its
   * face value needs no [1], but its background value does (line 242).
   */
  function WholeFaceAsWritten(video: seq<Frame>, boxes: seq<Box>): (r: Result<ES.Signals>)
    ensures r.Ok? <==> |video| == 0
  {
    if |video| == 0 then Ok(ES.Signals([], []))
    else if |boxes| == 0 then Err("list index out of range")
    else match IndexScalar(ES.Background(video[0]))
      case Err(e) => Err(e)
      case Ok(b) => Ok(ES.Signals([], []))
  }

  /** The body of the loop over objects as written (lines 146-254). */
  function ProcessAsWritten(obj: ES.SignalObject, settings: ES.Settings, lib: ES.Library): (r: Result<Outcome<ES.Signals>>)
    ensures r == Ok(Skipped("already exists")) <==> obj.faceExists && obj.backgroundExists && !settings.overwrite
  {
    if obj.faceExists && obj.backgroundExists && !settings.overwrite then Ok(Skipped("already exists"))
    else
      var signals :=
        if settings.wholeface then WholeFaceAsWritten(obj.video, obj.boxes)
        else MaskSignalsAsWritten(obj.video, obj.keypoints, settings.indent, obj.boxes, lib);
      match signals
      case Err(e) => Err(e)
      case Ok(s) => Ok(Saved(s))
  }

  /**
   * As written, every video with a frame that is not skipped raises: the
   * exception of the tracker's first frame if it has one, and otherwise the
   * IndexError of the scalar, at frame 0.
   */
  lemma ProcessAsWrittenRaises(obj: ES.SignalObject, settings: ES.Settings, lib: ES.Library)
    requires !(obj.faceExists && obj.backgroundExists && !settings.overwrite) && |obj.video| > 0
    ensures ProcessAsWritten(obj, settings, lib).Err?
    ensures settings.wholeface && |obj.boxes| > 0 ==> ProcessAsWritten(obj, settings, lib) == Err(ScalarIndexError)
    ensures !settings.wholeface ==>
      var first := Track(None, obj.video[0], 0, obj.keypoints, settings.indent, obj.boxes, lib.track);
      ProcessAsWritten(obj, settings, lib) == Err(if first.Err? then first.reason else ScalarIndexError)
  {
    if !settings.wholeface {
      var f := ColorsAsWritten(lib.contains);
      var one: nat := 1;
      assert TrackedWith(obj.video, obj.keypoints, settings.indent, obj.boxes, lib.track, f, 0) == Ok(Tracking([], []));
      assert TrackedWith(obj.video, obj.keypoints, settings.indent, obj.boxes, lib.track, f, one).Err?;
      TrackedWithStops(obj.video, obj.keypoints, settings.indent, obj.boxes, lib.track, f, one, |obj.video|);
    }
  }

  /**
   * The discrepancy: every object the intended loop saves with at least one
   * frame makes the loop as written raise instead.
   */
  lemma AsWrittenLosesSavedVideos(obj: ES.SignalObject, settings: ES.Settings, lib: ES.Library)
    requires ES.Process(obj, settings, lib).Ok? && ES.Process(obj, settings, lib).value.Saved? && |obj.video| > 0
    ensures ProcessAsWritten(obj, settings, lib).Err?
  {
    ProcessAsWrittenRaises(obj, settings, lib);
  }

  // ---------------------------------------------------------------------
  // The script as intended

  /**
   * A configuration without a database ends the run before any object
   * (lines 120-124); otherwise the objects are processed by the loop of
   * extract_signals.py, with the scalar means used as they are.
   */
  function Script(config: Configuration, lib: ES.Library): (r: (seq<Outcome<ES.Signals>>, Option<string>))
    ensures config.database.None? ==> r == ([], None)
    ensures config.database.Some? ==> r == ES.Script(config.database.value, config.settings, lib)
  {
    match config.database
    case None => ([], None)
    case Some(objects) => ES.Script(objects, config.settings, lib)
  }

  /**
   * The intended property: every object saved gets one face value and one
   * background value per frame, the background value being the mean over
   * the frame's top-left block, defined for every frame with a pixel.
   */
  lemma ScriptSavesEveryFrame(config: Configuration, lib: ES.Library, k: nat)
    requires config.database.Some? && k < |Script(config, lib).0| && Script(config, lib).0[k].Saved?
    ensures k < |config.database.value|
    ensures var obj := config.database.value[k];
      var s := Script(config, lib).0[k].data;
      |s.face| == |obj.video| == |s.background| &&
      forall i :: 0 <= i < |obj.video| ==> s.background[i] == ES.Background(obj.video[i]) && (s.background[i].Some? <==> |obj.video[i][0][0]| > 0)
  {
    var objects := config.database.value;
    assert !config.settings.gridcount;
    assert ES.Process(objects[k], config.settings, lib) == Ok(Script(config, lib).0[k]);
    ES.ProcessSavesBackground(objects[k], config.settings, lib);
  }

  method ExtractFaceAndBgSignalsScript(config: Configuration, lib: ES.Library)
    returns (outcomes: seq<Outcome<ES.Signals>>, failure: Option<string>)
    ensures (outcomes, failure) == Script(config, lib)
  {
    if config.database.None? {
      return [], None;
    }
    outcomes, failure := ES.ExtractSignalsScript(config.database.value, config.settings, lib);
  }
}
