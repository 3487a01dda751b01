/*
 * bob/rppg/chrom/script/extract_pulse.py: CHROM on the skin pixels of the
 * face.  Frames start .. end - 1 of every video are cropped to the stored
 * face box; a skin colour model, estimated on the first of them (or on
 * every one with --skininit), selects the skin pixels, and their mean
 * colour projected onto the chrominance plane gives one row of chrom.  The
 * grey-level difference between consecutive crops is recorded so that, with
 * --motion, only the most stable stretch of rows is kept; it is
 * compute_gray_diff as written, whose uint8 subtraction wraps modulo 256.  The two
 * chrominance columns are then band-passed and combined into the pulse.
 *
 * crop_face, the skin colour filter, the grey-level conversion,
 * scipy.signal.filtfilt, numpy.std and numpy.hanning are parameters.
 */
module ExtractPulse {
  import opened Numerics
  import opened BaseUtils
  import opened ChromUtils
  import opened PulseCombination
  import opened Scripts

  /** The library calls of the script. */
  datatype Library = Library(crop: FaceCrop, skin: SkinFilter, gray: ToGray, filtfilt: Filtfilt, std: StdDev, hann: Hanning)

  /** The command-line settings that reach the computation. */
  datatype Settings = Settings(overwrite: bool, start: int, end: int, motion: real, threshold: real, skininit: bool, window: int)

  // ---------------------------------------------------------------------
  // The frame range (lines 174-186)

  /** nb_frames: the number of chrominance rows. */
  function FrameCount(start: int, endIndex: int, n: nat): (nb: int)
    ensures endIndex > 0 ==> nb == endIndex - start
    ensures endIndex <= 0 ==> nb == n
  {
    if endIndex > 0 then endIndex - start else n
  }

  /** The loop never processes more frames than there are rows. */
  lemma ProcessedFits(i: nat, start: int, endIndex: int, n: nat)
    requires endIndex <= n
    ensures Processed(i, start, endIndex) <= FrameCount(start, endIndex, n) || FrameCount(start, endIndex, n) < 0
  {
  }

  // ---------------------------------------------------------------------
  // The frame loop (lines 200-260)

  /** The variables the loop carries: counter, chrom, diff_motion, the last face and the face the skin model was estimated on. */
  datatype Loop = Loop(counter: nat, chrom: seq<Chroma>, diff: seq<real>, face: Image, model: Image)

  /** The row the loop writes for a face and its skin mask, falling back on a grey face or on the previous row. */
  function Row(st: Loop, face: Image, mask: Mask): (c: Chroma)
    requires Fits(face, mask) && st.counter < |st.chrom|
    ensures CountTrue(mask) != 0 ==> exists m :: MeanRgb(face, mask) == Some(m) && c == ProjectChrominance(m.r, m.g, m.b)
    ensures CountTrue(mask) == 0 && st.counter == 0 ==> c == ProjectChrominance(128.0, 128.0, 128.0)
    ensures CountTrue(mask) == 0 && st.counter > 0 ==> c == st.chrom[st.counter - 1]
  {
    match MeanRgb(face, mask)
    case Some(m) => ProjectChrominance(m.r, m.g, m.b)
    case None => if st.counter == 0 then ProjectChrominance(128.0, 128.0, 128.0) else st.chrom[st.counter - 1]
  }

  /** True when the motion difference is recorded at frame i (line 215). */
  predicate Moves(st: Loop, i: nat, n: nat, s: Settings)
  {
    s.motion > 0.0 && i < n - 1 && st.counter > 0
  }

  /** The body of the loop for a frame i in the range, or the exception it raises. */
  function Step(st: Loop, frame: Image, i: nat, n: nat, boxes: seq<Box>, s: Settings, lib: Library): (r: Result<Loop>)
    requires st.counter < |st.chrom| && |st.diff| == |st.chrom| - 1
    ensures r.Err? <==> i >= |boxes| || (Moves(st, i, n, s) && !SameShape(lib.gray(st.face), lib.gray(Cropped(lib.crop, frame, boxes[i], boxes[i].width))))
    ensures r.Ok? ==> r.value.counter == st.counter + 1 && |r.value.chrom| == |st.chrom| && |r.value.diff| == |st.diff|
  {
    if i >= |boxes| then Err("list index out of range")
    else
      var bbox := boxes[i];
      var face := Cropped(lib.crop, frame, bbox, bbox.width);
      var moves := Moves(st, i, n, s);
      if moves && !SameShape(lib.gray(st.face), lib.gray(face)) then Err("operands could not be broadcast together")
      else
        var diff := if moves then st.diff[st.counter - 1 := GrayDiffAsWritten(st.face, face, lib.gray)] else st.diff;
        var model := if st.counter == 0 || s.skininit then face else st.model;
        var mask := SkinMask(lib.skin, model, face, s.threshold);
        assert Fits(face, mask) by { FaceFits(face, mask); }
        Ok(Loop(st.counter + 1, st.chrom[st.counter := Row(st, face, mask)], diff, face, model))
  }

  /**
   * What one frame writes: row counter (from the skin pixels of the crop,
   * or a fallback), the difference with the previous crop when the motion
   * is recorded, and nothing else; the crop becomes the last face and, on
   * the first frame or with --skininit, the skin model.
   */
  lemma StepWrites(st: Loop, frame: Image, i: nat, n: nat, boxes: seq<Box>, s: Settings, lib: Library)
    requires st.counter < |st.chrom| && |st.diff| == |st.chrom| - 1
    requires Step(st, frame, i, n, boxes, s, lib).Ok?
    ensures var next := Step(st, frame, i, n, boxes, s, lib).value;
      var face := Cropped(lib.crop, frame, boxes[i], boxes[i].width);
      next.face == face && next.model == (if st.counter == 0 || s.skininit then face else st.model) &&
      (forall k :: 0 <= k < |st.chrom| && k != st.counter ==> next.chrom[k] == st.chrom[k]) &&
      (forall k :: 0 <= k < |st.diff| && !(Moves(st, i, n, s) && k == st.counter - 1) ==> next.diff[k] == st.diff[k]) &&
      (Moves(st, i, n, s) ==>
        SameShape(lib.gray(st.face), lib.gray(face)) && next.diff[st.counter - 1] == GrayDiffAsWritten(st.face, face, lib.gray)) &&
      IsFace(face) && Fits(face, SkinMask(lib.skin, next.model, face, s.threshold)) &&
      next.chrom[st.counter] == Row(st, face, SkinMask(lib.skin, next.model, face, s.threshold))
  {
    var face := Cropped(lib.crop, frame, boxes[i], boxes[i].width);
    var moves := Moves(st, i, n, s);
    var diff := if moves then st.diff[st.counter - 1 := GrayDiffAsWritten(st.face, face, lib.gray)] else st.diff;
    var model := if st.counter == 0 || s.skininit then face else st.model;
    var mask := SkinMask(lib.skin, model, face, s.threshold);
    FaceFits(face, mask);
    assert Step(st, frame, i, n, boxes, s, lib).value == Loop(st.counter + 1, st.chrom[st.counter := Row(st, face, mask)], diff, face, model);
  }

  /** The state before the loop: nb zero rows and nb - 1 zero differences. */
  function Initial(nb: nat): (st: Loop)
    requires nb >= 1
    ensures st.counter == 0 && |st.chrom| == nb && |st.diff| == nb - 1
  {
    Loop(0, seq(nb, _ => Chroma(0.0, 0.0)), Zeros(nb - 1), [], [])
  }

  /** The frame loop over frames 0 .. k - 1, or the exception that stopped it. */
  function Frames(video: seq<Image>, boxes: seq<Box>, endIndex: int, s: Settings, lib: Library, k: nat): (r: Result<Loop>)
    requires k <= |video| && endIndex <= |video| && FrameCount(s.start, endIndex, |video|) >= 1
    ensures r.Ok? ==>
      r.value.counter == Processed(k, s.start, endIndex) &&
      |r.value.chrom| == FrameCount(s.start, endIndex, |video|) && |r.value.diff| == |r.value.chrom| - 1
    decreases k, 0
  {
    if k == 0 then Ok(Initial(FrameCount(s.start, endIndex, |video|)))
    else Visited(video, boxes, endIndex, s, lib, k - 1)
  }

  /** The loop once its body has run on frame i: the step for a frame in the range, the same state otherwise. */
  function Visited(video: seq<Image>, boxes: seq<Box>, endIndex: int, s: Settings, lib: Library, i: nat): (r: Result<Loop>)
    requires i < |video| && endIndex <= |video| && FrameCount(s.start, endIndex, |video|) >= 1
    ensures r.Ok? ==>
      r.value.counter == Processed(i + 1, s.start, endIndex) &&
      |r.value.chrom| == FrameCount(s.start, endIndex, |video|) && |r.value.diff| == |r.value.chrom| - 1
    decreases i, 2
  {
    if s.start <= i < endIndex then Stepped(video, boxes, endIndex, s, lib, i)
    else Frames(video, boxes, endIndex, s, lib, i)
  }

  /** Step on the state the loop reaches frame i with, for a frame i in the range. */
  function Stepped(video: seq<Image>, boxes: seq<Box>, endIndex: int, s: Settings, lib: Library, i: nat): (r: Result<Loop>)
    requires i < |video| && endIndex <= |video| && FrameCount(s.start, endIndex, |video|) >= 1
    requires s.start <= i < endIndex
    ensures r.Ok? ==>
      r.value.counter == Processed(i + 1, s.start, endIndex) &&
      |r.value.chrom| == FrameCount(s.start, endIndex, |video|) && |r.value.diff| == |r.value.chrom| - 1
    decreases i, 1
  {
    match Frames(video, boxes, endIndex, s, lib, i)
    case Err(e) => Err(e)
    case Ok(st) => Step(st, video[i], i, |video|, boxes, s, lib)
  }

  /** One more frame of the loop: the step for a frame in the range, nothing otherwise, and an exception stays. */
  lemma FramesNext(video: seq<Image>, boxes: seq<Box>, endIndex: int, s: Settings, lib: Library, k: nat)
    requires k < |video| && endIndex <= |video| && FrameCount(s.start, endIndex, |video|) >= 1
    ensures Frames(video, boxes, endIndex, s, lib, k).Err? ==>
      Frames(video, boxes, endIndex, s, lib, k + 1) == Frames(video, boxes, endIndex, s, lib, k)
    ensures Frames(video, boxes, endIndex, s, lib, k).Ok? ==>
      var st := Frames(video, boxes, endIndex, s, lib, k).value;
      (st.counter < |st.chrom| || !(s.start <= k < endIndex)) &&
      Frames(video, boxes, endIndex, s, lib, k + 1) ==
        if s.start <= k < endIndex then Step(st, video[k], k, |video|, boxes, s, lib) else Ok(st)
  {
    assert Frames(video, boxes, endIndex, s, lib, k + 1) == Visited(video, boxes, endIndex, s, lib, k);
    if s.start <= k < endIndex {
      assert Visited(video, boxes, endIndex, s, lib, k) == Stepped(video, boxes, endIndex, s, lib, k);
    }
  }

  /** Frames outside start .. end - 1 change nothing: the loop may stop at any frame past the end. */
  lemma {:induction false} FramesSkip(video: seq<Image>, boxes: seq<Box>, endIndex: int, s: Settings, lib: Library, j: nat, k: nat)
    requires j <= k <= |video| && endIndex <= |video| && FrameCount(s.start, endIndex, |video|) >= 1
    requires k <= s.start || endIndex <= j
    ensures Frames(video, boxes, endIndex, s, lib, k) == Frames(video, boxes, endIndex, s, lib, j)
    decreases k
  {
    if k > j {
      var previous: nat := k - 1;
      FramesSkip(video, boxes, endIndex, s, lib, j, previous);
    }
  }

  /** The first frame the loop processes. */
  function First(s: Settings): nat
  {
    Max(s.start, 0)
  }

  /**
   * The rows and differences the loop has not reached keep their zeros,
   * and the last face is the crop of the last frame processed.
   */
  lemma {:induction false} FramesUnwritten(video: seq<Image>, boxes: seq<Box>, endIndex: int, s: Settings, lib: Library, k: nat)
    requires k <= |video| && endIndex <= |video| && FrameCount(s.start, endIndex, |video|) >= 1
    requires Frames(video, boxes, endIndex, s, lib, k).Ok?
    ensures var st := Frames(video, boxes, endIndex, s, lib, k).value;
      (forall r :: st.counter <= r < |st.chrom| ==> st.chrom[r] == Chroma(0.0, 0.0)) &&
      (forall r :: st.counter <= r < |st.diff| ==> st.diff[r] == 0.0)
    decreases k
  {
    if k > 0 {
      var previous: nat := k - 1;
      FramesNext(video, boxes, endIndex, s, lib, previous);
      FramesUnwritten(video, boxes, endIndex, s, lib, previous);
      if s.start <= previous < endIndex {
        StepWrites(Frames(video, boxes, endIndex, s, lib, previous).value, video[previous], previous, |video|, boxes, s, lib);
      }
    }
  }

  /** After the loop has processed a frame, the last face is the crop of the last frame processed. */
  lemma {:induction false} FramesFace(video: seq<Image>, boxes: seq<Box>, endIndex: int, s: Settings, lib: Library, k: nat)
    requires k <= |video| && endIndex <= |video| && FrameCount(s.start, endIndex, |video|) >= 1
    requires Frames(video, boxes, endIndex, s, lib, k).Ok?
    ensures var st := Frames(video, boxes, endIndex, s, lib, k).value;
      st.counter > 0 ==>
        var last := First(s) + st.counter - 1;
        last < |video| && last < |boxes| && st.face == CropOf(video, boxes, lib, last)
    decreases k
  {
    if k > 0 {
      var i: nat := k - 1;
      FramesNext(video, boxes, endIndex, s, lib, i);
      FramesFace(video, boxes, endIndex, s, lib, i);
      if s.start <= i < endIndex {
        var st := Frames(video, boxes, endIndex, s, lib, i).value;
        StepWrites(st, video[i], i, |video|, boxes, s, lib);
        assert First(s) + st.counter == i;
        var next := Frames(video, boxes, endIndex, s, lib, k).value;
        assert next == Step(st, video[i], i, |video|, boxes, s, lib).value;
        assert next.face == CropOf(video, boxes, lib, i);
        assert First(s) + next.counter - 1 == i;
      } else {
        assert Frames(video, boxes, endIndex, s, lib, k) == Frames(video, boxes, endIndex, s, lib, i);
      }
    }
  }

  /** Without --skininit the skin model is the one estimated on the first frame processed. */
  lemma {:induction false} FramesModel(video: seq<Image>, boxes: seq<Box>, endIndex: int, s: Settings, lib: Library, k: nat)
    requires k <= |video| && endIndex <= |video| && FrameCount(s.start, endIndex, |video|) >= 1
    requires Frames(video, boxes, endIndex, s, lib, k).Ok? && !s.skininit
    ensures var st := Frames(video, boxes, endIndex, s, lib, k).value;
      st.counter > 0 ==>
        First(s) < |video| && First(s) < |boxes| &&
        st.model == Cropped(lib.crop, video[First(s)], boxes[First(s)], boxes[First(s)].width)
    decreases k
  {
    if k > 0 {
      var previous: nat := k - 1;
      FramesNext(video, boxes, endIndex, s, lib, previous);
      FramesModel(video, boxes, endIndex, s, lib, previous);
      if s.start <= previous < endIndex {
        StepWrites(Frames(video, boxes, endIndex, s, lib, previous).value, video[previous], previous, |video|, boxes, s, lib);
      }
    }
  }

  /**
   * A skin filter that never finds skin leaves every written row at the
   * chrominance of a uniform grey face: the first row falls back on it and
   * every later row copies the one before.
   */
  lemma {:induction false} FramesWithoutSkin(video: seq<Image>, boxes: seq<Box>, endIndex: int, s: Settings, lib: Library, k: nat)
    requires k <= |video| && endIndex <= |video| && FrameCount(s.start, endIndex, |video|) >= 1
    requires forall model, r, g, b :: !lib.skin(model, r, g, b, s.threshold)
    requires Frames(video, boxes, endIndex, s, lib, k).Ok?
    ensures var st := Frames(video, boxes, endIndex, s, lib, k).value;
      forall r :: 0 <= r < st.counter ==> st.chrom[r] == ProjectChrominance(128.0, 128.0, 128.0)
    decreases k
  {
    if k > 0 {
      var previous: nat := k - 1;
      FramesNext(video, boxes, endIndex, s, lib, previous);
      FramesWithoutSkin(video, boxes, endIndex, s, lib, previous);
      if s.start <= previous < endIndex {
        var st := Frames(video, boxes, endIndex, s, lib, previous).value;
        StepWrites(st, video[previous], previous, |video|, boxes, s, lib);
        var next := Step(st, video[previous], previous, |video|, boxes, s, lib).value;
        NoSkin(lib.skin, next.model, next.face, s.threshold);
      }
    }
  }

  /** The crop of frame a, with the box stored for it. */
  function CropOf(video: seq<Image>, boxes: seq<Box>, lib: Library, a: nat): Image
    requires a < |video| && a < |boxes|
  {
    Cropped(lib.crop, video[a], boxes[a], boxes[a].width)
  }

  /** d is compute_gray_diff, as written, of the crops of frames a and a + 1. */
  ghost predicate DiffOf(video: seq<Image>, boxes: seq<Box>, lib: Library, a: nat, d: real)
  {
    a + 1 < |video| && a + 1 < |boxes| &&
    SameShape(lib.gray(CropOf(video, boxes, lib, a)), lib.gray(CropOf(video, boxes, lib, a + 1))) &&
    d == GrayDiffAsWritten(CropOf(video, boxes, lib, a), CropOf(video, boxes, lib, a + 1), lib.gray)
  }

  /**
   * With --motion, diff_motion[j] is compute_gray_diff (as written) of the
   * crops of frames First + j and First + j + 1, for every pair the loop has
   * reached whose second frame is not the last frame of the video.
   */
  lemma {:induction false} FramesMotion(video: seq<Image>, boxes: seq<Box>, endIndex: int, s: Settings, lib: Library, k: nat)
    requires k <= |video| && endIndex <= |video| && FrameCount(s.start, endIndex, |video|) >= 1
    requires Frames(video, boxes, endIndex, s, lib, k).Ok? && s.motion > 0.0
    ensures var st := Frames(video, boxes, endIndex, s, lib, k).value;
      forall j :: 0 <= j && j + 1 < st.counter && First(s) + j + 1 < |video| - 1 ==> DiffOf(video, boxes, lib, First(s) + j, st.diff[j])
    decreases k
  {
    if k > 0 {
      var i: nat := k - 1;
      FramesNext(video, boxes, endIndex, s, lib, i);
      FramesMotion(video, boxes, endIndex, s, lib, i);
      FramesFace(video, boxes, endIndex, s, lib, i);
      var st := Frames(video, boxes, endIndex, s, lib, i).value;
      if s.start <= i < endIndex {
        StepWrites(st, video[i], i, |video|, boxes, s, lib);
        var next := Step(st, video[i], i, |video|, boxes, s, lib).value;
        forall j | 0 <= j && j + 1 < next.counter && First(s) + j + 1 < |video| - 1
          ensures DiffOf(video, boxes, lib, First(s) + j, next.diff[j])
        {
          if j + 1 == st.counter {
            assert First(s) + j + 1 == i;
            assert Moves(st, i, |video|, s);
            assert st.face == CropOf(video, boxes, lib, First(s) + j);
            assert next.face == CropOf(video, boxes, lib, i);
          } else {
            assert next.diff[j] == st.diff[j];
          }
        }
      }
    }
  }

  /** The three outcomes of Step, spelled out for the in-place version. */
  lemma StepCases(st: Loop, frame: Image, i: nat, n: nat, boxes: seq<Box>, s: Settings, lib: Library)
    requires st.counter < |st.chrom| && |st.diff| == |st.chrom| - 1
    ensures i >= |boxes| ==> Step(st, frame, i, n, boxes, s, lib) == Err("list index out of range")
    ensures i < |boxes| ==>
      var face := Cropped(lib.crop, frame, boxes[i], boxes[i].width);
      var moves := Moves(st, i, n, s);
      IsFace(face) &&
      (moves && !SameShape(lib.gray(st.face), lib.gray(face)) ==> Step(st, frame, i, n, boxes, s, lib) == Err("operands could not be broadcast together")) &&
      (!(moves && !SameShape(lib.gray(st.face), lib.gray(face))) ==>
        var diff := if moves then st.diff[st.counter - 1 := GrayDiffAsWritten(st.face, face, lib.gray)] else st.diff;
        var model := if st.counter == 0 || s.skininit then face else st.model;
        var mask := SkinMask(lib.skin, model, face, s.threshold);
        Fits(face, mask) &&
        Step(st, frame, i, n, boxes, s, lib) == Ok(Loop(st.counter + 1, st.chrom[st.counter := Row(st, face, mask)], diff, face, model)))
  {
  }

  /** The step of a frame whose box is stored and whose crop matches the previous one when it must. */
  lemma StepWritten(st: Loop, frame: Image, i: nat, n: nat, boxes: seq<Box>, s: Settings, lib: Library,
                    face: Image, model: Image, chrom: seq<Chroma>, diff: seq<real>)
    requires st.counter < |st.chrom| && |st.diff| == |st.chrom| - 1 && i < |boxes|
    requires face == Cropped(lib.crop, frame, boxes[i], boxes[i].width)
    requires model == if st.counter == 0 || s.skininit then face else st.model
    requires !(Moves(st, i, n, s) && !SameShape(lib.gray(st.face), lib.gray(face)))
    requires diff == if Moves(st, i, n, s) then st.diff[st.counter - 1 := GrayDiffAsWritten(st.face, face, lib.gray)] else st.diff
    requires chrom == st.chrom[st.counter := Row(st, face, SkinMask(lib.skin, model, face, s.threshold))]
    ensures Step(st, frame, i, n, boxes, s, lib) == Ok(Loop(st.counter + 1, chrom, diff, face, model))
  {
    StepCases(st, frame, i, n, boxes, s, lib);
  }

  /** One frame of the loop, in place on the chrom and diff_motion arrays. */
  method StepFrame(chrom: array<Chroma>, diff: array<real>, counter: nat, face: Image, model: Image,
                   frame: Image, i: nat, n: nat, boxes: seq<Box>, s: Settings, lib: Library)
    returns (r: Result<(Image, Image)>)
    requires counter < chrom.Length && diff.Length == chrom.Length - 1
    modifies chrom, diff
    ensures var st := Step(Loop(counter, old(chrom[..]), old(diff[..]), face, model), frame, i, n, boxes, s, lib);
      match r
      case Err(e) => st == Err(e)
      case Ok(carried) => st == Ok(Loop(counter + 1, chrom[..], diff[..], carried.0, carried.1))
  {
    var st := Loop(counter, chrom[..], diff[..], face, model);
    if i >= |boxes| {
      StepCases(st, frame, i, n, boxes, s, lib);
      return Err("list index out of range");
    }
    var bbox := boxes[i];
    var current := Cropped(lib.crop, frame, bbox, bbox.width);
    var moves := s.motion > 0.0 && i < n - 1 && counter > 0;
    assert moves == Moves(st, i, n, s);
    if moves && !SameShape(lib.gray(face), lib.gray(current)) {
      StepCases(st, frame, i, n, boxes, s, lib);
      return Err("operands could not be broadcast together");
    }
    if moves {
      SetReal(diff, counter - 1, GrayDiffAsWritten(face, current, lib.gray));
    }
    var estimated := if counter == 0 || s.skininit then current else model;
    var mask := SkinMask(lib.skin, estimated, current, s.threshold);
    SetChroma(chrom, counter, Row(st, current, mask));
    StepWritten(st, frame, i, n, boxes, s, lib, current, estimated, chrom[..], diff[..]);
    r := Ok((current, estimated));
  }

  /** a[k] := v. */
  method SetReal(a: array<real>, k: nat, v: real)
    requires k < a.Length
    modifies a
    ensures a[..] == old(a[..])[k := v]
  {
    a[k] := v;
  }

  /** a[k] := v. */
  method SetChroma(a: array<Chroma>, k: nat, v: Chroma)
    requires k < a.Length
    modifies a
    ensures a[..] == old(a[..])[k := v]
  {
    a[k] := v;
  }

  /** Frame i of the loop, in place: the step when i is in the range, nothing otherwise. */
  method VisitFrame(chrom: array<Chroma>, diff: array<real>, counter: nat, face: Image, model: Image,
                    video: seq<Image>, boxes: seq<Box>, endIndex: int, s: Settings, lib: Library, i: nat)
    returns (r: Result<(nat, Image, Image)>)
    requires i < |video| && endIndex <= |video| && FrameCount(s.start, endIndex, |video|) >= 1
    requires Frames(video, boxes, endIndex, s, lib, i) == Ok(Loop(counter, chrom[..], diff[..], face, model))
    modifies chrom, diff
    ensures r.Err? ==> Frames(video, boxes, endIndex, s, lib, i + 1) == Err(r.reason)
    ensures r.Ok? ==> Frames(video, boxes, endIndex, s, lib, i + 1) == Ok(Loop(r.value.0, chrom[..], diff[..], r.value.1, r.value.2))
  {
    FramesNext(video, boxes, endIndex, s, lib, i);
    if s.start <= i < endIndex {
      var carried := StepFrame(chrom, diff, counter, face, model, video[i], i, |video|, boxes, s, lib);
      if carried.Err? {
        return Err(carried.reason);
      }
      r := Ok((counter + 1, carried.value.0, carried.value.1));
    } else {
      r := Ok((counter, face, model));
    }
  }

  /** The loop over the frames of one video, on the chrom and diff_motion arrays; it stops past the end. */
  method LoopFrames(chrom: array<Chroma>, diff: array<real>, video: seq<Image>, boxes: seq<Box>, endIndex: int, s: Settings, lib: Library)
    returns (r: Result<Loop>)
    requires endIndex <= |video| && FrameCount(s.start, endIndex, |video|) >= 1
    requires Frames(video, boxes, endIndex, s, lib, 0) == Ok(Loop(0, chrom[..], diff[..], [], []))
    modifies chrom, diff
    ensures r == Frames(video, boxes, endIndex, s, lib, |video|)
  {
    var counter: nat := 0;
    var face: Image, model: Image := [], [];
    for i := 0 to |video|
      invariant Frames(video, boxes, endIndex, s, lib, i) == Ok(Loop(counter, chrom[..], diff[..], face, model))
    {
      if i > endIndex {
        FramesSkip(video, boxes, endIndex, s, lib, i, |video|);
        break;
      }
      var visited := VisitFrame(chrom, diff, counter, face, model, video, boxes, endIndex, s, lib, i);
      if visited.Err? {
        FramesStop(video, boxes, endIndex, s, lib, i + 1, |video|);
        return Err(visited.reason);
      }
      counter, face, model := visited.value.0, visited.value.1, visited.value.2;
    }
    r := Ok(Loop(counter, chrom[..], diff[..], face, model));
  }

  /** Lines 189-260: chrom and diff_motion start as zeros, then the loop runs over the frames. */
  method FrameLoop(video: seq<Image>, boxes: seq<Box>, endIndex: int, s: Settings, lib: Library) returns (r: Result<Loop>)
    requires endIndex <= |video| && FrameCount(s.start, endIndex, |video|) >= 1
    ensures r == Frames(video, boxes, endIndex, s, lib, |video|)
  {
    var nb: nat := FrameCount(s.start, endIndex, |video|);
    var chrom := new Chroma[nb](_ => Chroma(0.0, 0.0));
    var diff := new real[nb - 1](_ => 0.0);
    assert chrom[..] == Initial(nb).chrom && diff[..] == Initial(nb).diff;
    r := LoopFrames(chrom, diff, video, boxes, endIndex, s, lib);
  }

  /** Once the loop has raised, later frames do not change the exception. */
  lemma {:induction false} FramesStop(video: seq<Image>, boxes: seq<Box>, endIndex: int, s: Settings, lib: Library, j: nat, k: nat)
    requires j <= k <= |video| && endIndex <= |video| && FrameCount(s.start, endIndex, |video|) >= 1
    requires Frames(video, boxes, endIndex, s, lib, j).Err?
    ensures Frames(video, boxes, endIndex, s, lib, k) == Frames(video, boxes, endIndex, s, lib, j)
    decreases k
  {
    if k > j {
      var previous: nat := k - 1;
      FramesStop(video, boxes, endIndex, s, lib, j, previous);
      FramesNext(video, boxes, endIndex, s, lib, previous);
    }
  }

  // ---------------------------------------------------------------------
  // The stable stretch (lines 263-268)

  /** select_stable_frames(diff_motion, n): the earliest start of a window of least motion, or 0. */
  ghost function StableStart(diff: seq<real>, n: int): (idx: int)
    ensures |diff| - n <= 0 ==> idx == 0
    ensures |diff| - n > 0 ==> EarliestMinimum(diff, n, idx)
  {
    if |diff| - n <= 0 then 0
    else
      EarliestMinimumExists(diff, n);
      var idx :| EarliestMinimum(diff, n, idx);
      idx
  }

  /** int(motion * nb_frames): the number of stable rows to keep. */
  function KeepCount(motion: real, nb: nat): (n: int)
    ensures motion > 0.0 ==> n >= 0
  {
    Trunc(motion * nb as real)
  }

  /**
   * The rows kept: all of them without --motion, otherwise the contiguous
   * stretch of min(n, nb) rows that starts at the stable start.
   */
  ghost function Kept(chrom: seq<Chroma>, diff: seq<real>, motion: real): (r: seq<Chroma>)
    requires |chrom| >= 1 && |diff| == |chrom| - 1
    ensures motion <= 0.0 ==> r == chrom
    ensures motion > 0.0 ==>
      var n := KeepCount(motion, |chrom|);
      var idx := StableStart(diff, n);
      |r| == Min(n, |chrom|) && 0 <= idx && idx + |r| <= |chrom| && r == chrom[idx..idx + |r|]
  {
    if motion <= 0.0 then chrom
    else
      var n := KeepCount(motion, |chrom|);
      var idx := StableStart(diff, n);
      PySlice(chrom, idx, idx + n)
  }

  /** chrom[:, 0] and chrom[:, 1]. */
  function Xs(chrom: seq<Chroma>): (x: seq<real>)
    ensures |x| == |chrom|
  {
    seq(|chrom|, i requires 0 <= i < |chrom| => chrom[i].x)
  }

  function Ys(chrom: seq<Chroma>): (y: seq<real>)
    ensures |y| == |chrom|
  {
    seq(|chrom|, i requires 0 <= i < |chrom| => chrom[i].y)
  }

  /**
   * Lines 263-310: the pulse of the rows kept.  It raises exactly when the
   * rows kept are too few for filtfilt's padding or the window is 1.
   */
  ghost function Pulse(chrom: seq<Chroma>, diff: seq<real>, s: Settings, taps: seq<real>, lib: Library): (r: Result<seq<real>>)
    requires |chrom| >= 1 && |diff| == |chrom| - 1
    ensures r.Err? <==> |Kept(chrom, diff, s.motion)| <= PadLength(taps) || s.window == 1
    ensures r.Ok? ==>
      var kept := Kept(chrom, diff, s.motion);
      r.value == FinalPulse(FiltFilt(lib.filtfilt, taps, Xs(kept)), FiltFilt(lib.filtfilt, taps, Ys(kept)), s.window, lib.std, lib.hann)
  {
    var kept := Kept(chrom, diff, s.motion);
    Bandpassed(Xs(kept), Ys(kept), taps, s.window, lib.filtfilt, lib.std, lib.hann)
  }

  /** The stable stretch, imperatively: select_stable_frames, the slice, then the band-pass and the overlap-add. */
  method StablePulse(chrom: seq<Chroma>, diff: seq<real>, s: Settings, taps: seq<real>, lib: Library) returns (r: Result<seq<real>>)
    requires |chrom| >= 1 && |diff| == |chrom| - 1
    ensures r == Pulse(chrom, diff, s, taps, lib)
  {
    var kept := chrom;
    if s.motion > 0.0 {
      var n := KeepCount(s.motion, |chrom|);
      var index := SelectStableFrames(diff, n);
      if |diff| - n > 0 {
        EarliestMinimumUnique(diff, n, index, StableStart(diff, n));
      }
      kept := PySlice(chrom, index, index + n);
    }
    assert kept == Kept(chrom, diff, s.motion);
    r := BandpassAndCombine(Xs(kept), Ys(kept), taps, s.window, lib.filtfilt, lib.std, lib.hann);
  }

  // ---------------------------------------------------------------------
  // One object and the script (lines 158-320)

  /** One database object: does the output exist, the frames and the stored face boxes. */
  datatype VideoObject = VideoObject(outputExists: bool, video: seq<Image>, boxes: seq<Box>)

  /** The body of the loop over objects, or the exception it raises. */
  ghost function Process(obj: VideoObject, s: Settings, taps: seq<real>, lib: Library): (r: Result<Outcome<seq<real>>>)
    ensures obj.outputExists && !s.overwrite ==> r == Ok(Skipped("already exists"))
    ensures !(obj.outputExists && !s.overwrite) && EndIndex(s.end, |obj.video|) > |obj.video| ==>
      r == Ok(Skipped("not long enough"))
    ensures !(obj.outputExists && !s.overwrite) && EndIndex(s.end, |obj.video|) <= |obj.video| &&
            FrameCount(s.start, EndIndex(s.end, |obj.video|), |obj.video|) < 1 ==>
      r == Err("negative dimensions are not allowed")
    ensures r.Ok? && r.value.Saved? ==>
      var endIndex := EndIndex(s.end, |obj.video|);
      var nb := FrameCount(s.start, endIndex, |obj.video|);
      endIndex <= |obj.video| && nb >= 1 &&
      Frames(obj.video, obj.boxes, endIndex, s, lib, |obj.video|).Ok? &&
      var st := Frames(obj.video, obj.boxes, endIndex, s, lib, |obj.video|).value;
      Pulse(st.chrom, st.diff, s, taps, lib) == Ok(r.value.data) &&
      |r.value.data| == (if s.motion > 0.0 then Min(KeepCount(s.motion, nb), nb) else nb)
  {
    if obj.outputExists && !s.overwrite then Ok(Skipped("already exists"))
    else
      var endIndex := EndIndex(s.end, |obj.video|);
      if endIndex > |obj.video| then Ok(Skipped("not long enough"))
      else if FrameCount(s.start, endIndex, |obj.video|) < 1 then Err("negative dimensions are not allowed")
      else match Frames(obj.video, obj.boxes, endIndex, s, lib, |obj.video|)
        case Err(e) => Err(e)
        case Ok(st) =>
          match Pulse(st.chrom, st.diff, s, taps, lib)
          case Err(e) => Err(e)
          case Ok(pulse) => Ok(Saved(pulse))
  }

  /** One object, imperatively: the frame loop, the stable stretch, then the band-pass and the overlap-add. */
  method ProcessObject(obj: VideoObject, s: Settings, taps: seq<real>, lib: Library) returns (r: Result<Outcome<seq<real>>>)
    ensures r == Process(obj, s, taps, lib)
  {
    if obj.outputExists && !s.overwrite {
      return Ok(Skipped("already exists"));
    }
    var endIndex := EndIndex(s.end, |obj.video|);
    if endIndex > |obj.video| {
      return Ok(Skipped("not long enough"));
    }
    if FrameCount(s.start, endIndex, |obj.video|) < 1 {
      return Err("negative dimensions are not allowed");
    }
    var frames := FrameLoop(obj.video, obj.boxes, endIndex, s, lib);
    if frames.Err? {
      return Err(frames.reason);
    }
    var pulse := StablePulse(frames.value.chrom, frames.value.diff, s, taps, lib);
    if pulse.Err? {
      return Err(pulse.reason);
    }
    return Ok(Saved(pulse.value));
  }

  /** The whole script: the filter is built once (line 154), then every object in turn until one raises. */
  ghost function Script(objects: seq<VideoObject>, s: Settings, framerate: real, order: int, firwin: Firwin, lib: Library)
    : (r: (seq<Outcome<seq<real>>>, Option<string>))
  {
    match BuildBandpassFilter(framerate, order, firwin)
    case Err(e) => ([], Some(e))
    case Ok(taps) => Run(objects, (obj: VideoObject) => Process(obj, s, taps, lib))
  }

  method ExtractPulseScript(objects: seq<VideoObject>, s: Settings, framerate: real, order: int, firwin: Firwin, lib: Library)
    returns (outcomes: seq<Outcome<seq<real>>>, failure: Option<string>)
    ensures (outcomes, failure) == Script(objects, s, framerate, order, firwin, lib)
  {
    var filter := BuildBandpassFilter(framerate, order, firwin);
    if filter.Err? {
      return [], Some(filter.reason);
    }
    ghost var process := (obj: VideoObject) => Process(obj, s, filter.value, lib);
    outcomes, failure := [], None;
    for k := 0 to |objects|
      invariant |outcomes| == k
      invariant forall i :: 0 <= i < k ==> process(objects[i]) == Ok(outcomes[i])
    {
      var outcome := ProcessObject(objects[k], s, filter.value, lib);
      if outcome.Err? {
        failure := Some(outcome.reason);
        RunStopsAt(objects, process, outcomes);
        return;
      }
      outcomes := outcomes + [outcome.value];
    }
    RunStopsAt(objects, process, outcomes);
  }
}
