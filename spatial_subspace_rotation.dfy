/*
 * bob/rppg/ssr/script/spatial_subspace_rotation.py: 2SR on the skin pixels
 * of the face.  For frames start .. end - 1 the skin pixels of the face are
 * found (going back in time, with the current frame's pixels under an
 * earlier face box, when a frame has none), their correlation matrix gives
 * the frame's eigenvalues and eigenvectors, and from frame stride on each
 * frame adds a zero-mean chunk of length stride, built from the rotation of
 * the skin subspace, to the stride frames before it.
 *
 * crop_face, the skin colour filter, the face detector, numpy.linalg.eig,
 * numpy.sqrt and numpy.std are parameters.
 */
module SpatialSubspaceRotation {
  import opened Numerics
  import opened BaseUtils
  import opened FilterUtils
  import opened SsrUtils
  import opened Scripts

  /** The library calls of the script. */
  datatype Library = Library(crop: FaceCrop, skin: SkinFilter, detect: Image -> Box, eig: Eig, sqrt: real -> real, std: StdDev)

  /** The command-line settings that reach the computation. */
  datatype Settings = Settings(overwrite: bool, start: int, end: int, stride: int, threshold: real, skininit: bool)

  // ---------------------------------------------------------------------
  // get_skin_pixels (ssr_utils.py:28-86) with the module's one skin filter

  /**
   * The skin pixels found (3 x count, scaled to [0, 1]) and the face the
   * module-level skin filter was last estimated on.
   */
  datatype Skin = Skin(pixels: Matrix, count: nat, model: Image)

  /**
   * get_skin_pixels(face_frame, index, skininit, threshold, bounding_boxes,
   * skin_frame): the face box is bounding_boxes[index] when there are boxes
   * (Python indexing, negative indices wrap) and the detector's otherwise;
   * the face is cropped from skin_frame.
   */
  function GetSkinPixels(faceFrame: Image, index: int, skinFrame: Image, skininit: bool, model: Image,
                         boxes: seq<Box>, threshold: real, lib: Library): (r: Result<Skin>)
    ensures r.Err? <==> |boxes| > 0 && PyIndex(index, |boxes|).None?
    ensures r.Ok? ==> IsMatrix(r.value.pixels, 3, r.value.count)
    ensures r.Ok? ==>
      var bbox := if |boxes| > 0 then boxes[PyIndex(index, |boxes|).value] else lib.detect(faceFrame);
      var face := Cropped(lib.crop, skinFrame, bbox, bbox.width);
      r.value.model == (if skininit then face else model) &&
      r.value.count == CountTrue(SkinMask(lib.skin, r.value.model, face, threshold))
  {
    if |boxes| > 0 && PyIndex(index, |boxes|).None? then Err("list index out of range")
    else
      var bbox := if |boxes| > 0 then boxes[PyIndex(index, |boxes|).value] else lib.detect(faceFrame);
      var face := Cropped(lib.crop, skinFrame, bbox, bbox.width);
      var estimated := if skininit then face else model;
      var mask := SkinMask(lib.skin, estimated, face, threshold);
      FaceFits(face, mask);
      Ok(Skin(SkinPixels(face, mask), CountTrue(mask), estimated))
  }

  /**
   * Lines 220-232: with no skin in frame i, frames i - k, i - k - 1, ... give
   * the face box (Python indexing into the video and the boxes) under which
   * the pixels of frame i are taken, until some skin is found.  Going past
   * the start of the video raises.
   */
  function SearchBack(video: seq<Image>, boxes: seq<Box>, i: nat, k: nat, frame: Image, model: Image, s: Settings, lib: Library)
    : (r: Result<Skin>)
    requires k >= 1
    ensures r.Ok? ==> r.value.count > 0 && IsMatrix(r.value.pixels, 3, r.value.count)
    ensures i - k < -|video| ==> r == Err("index out of range")
    decreases i + |video| + 1 - k
  {
    match PyIndex(i - k, |video|)
    case None => Err("index out of range")
    case Some(j) =>
      match GetSkinPixels(video[j], i - k, frame, s.skininit, model, boxes, s.threshold, lib)
      case Err(e) => Err(e)
      case Ok(skin) => if skin.count > 0 then Ok(skin) else SearchBack(video, boxes, i, k + 1, frame, skin.model, s, lib)
  }

  /** A skin filter that never finds skin makes the search raise instead of looping forever. */
  lemma {:induction false} SearchBackWithoutSkin(video: seq<Image>, boxes: seq<Box>, i: nat, k: nat, frame: Image, model: Image, s: Settings, lib: Library)
    requires k >= 1
    requires forall model, r, g, b :: !lib.skin(model, r, g, b, s.threshold)
    ensures SearchBack(video, boxes, i, k, frame, model, s, lib).Err?
    decreases i + |video| + 1 - k
  {
    var j := PyIndex(i - k, |video|);
    if j.Some? {
      var skin := GetSkinPixels(video[j.value], i - k, frame, s.skininit, model, boxes, s.threshold, lib);
      if skin.Ok? {
        var bbox := if |boxes| > 0 then boxes[PyIndex(i - k, |boxes|).value] else lib.detect(video[j.value]);
        var face := Cropped(lib.crop, frame, bbox, bbox.width);
        NoSkin(lib.skin, skin.value.model, face, s.threshold);
        assert skin.value.count == CountTrue(SkinMask(lib.skin, skin.value.model, face, s.threshold)) == 0;
        var next: nat := k + 1;
        SearchBackWithoutSkin(video, boxes, i, next, frame, skin.value.model, s, lib);
        assert SearchBack(video, boxes, i, k, frame, model, s, lib) == SearchBack(video, boxes, i, next, frame, skin.value.model, s, lib);
      }
    }
  }

  /** The search loop (lines 220-228), imperatively. */
  method FindSkin(video: seq<Image>, boxes: seq<Box>, i: nat, frame: Image, model: Image, s: Settings, lib: Library)
    returns (r: Result<Skin>)
    ensures r == SearchBack(video, boxes, i, 1, frame, model, s, lib)
  {
    var k := 1;
    var current := model;
    while true
      invariant 1 <= k <= i + |video| + 1
      invariant SearchBack(video, boxes, i, 1, frame, model, s, lib) == SearchBack(video, boxes, i, k, frame, current, s, lib)
      decreases i + |video| + 1 - k
    {
      var j := PyIndex(i - k, |video|);
      if j.None? {
        return Err("index out of range");
      }
      var skin := GetSkinPixels(video[j.value], i - k, frame, s.skininit, current, boxes, s.threshold, lib);
      if skin.Err? {
        return Err(skin.reason);
      }
      if skin.value.count > 0 {
        return Ok(skin.value);
      }
      k, current := k + 1, skin.value.model;
    }
  }

  // ---------------------------------------------------------------------
  // The accumulation of the pulse (lines 236-240)

  /** p - numpy.mean(p); the chunk of an empty window is empty. */
  function Centered(p: seq<real>): (q: seq<real>)
    ensures |q| == |p|
    ensures Sum(q) == 0.0
  {
    if |p| == 0 then []
    else
      var m := Mean(p).value;
      var q := Sub(p, seq(|p|, _ => m));
      SumSub(p, seq(|p|, _ => m));
      SumConstant(seq(|p|, _ => m), m);
      q
  }

  /** Centring shifts every sample by the same amount: the differences between samples are kept. */
  lemma CenteredKeepsDifferences(p: seq<real>, a: nat, b: nat)
    requires a < |p| && b < |p|
    ensures Centered(p)[a] - Centered(p)[b] == p[a] - p[b]
  {
    var m := Mean(p).value;
    assert Centered(p) == Sub(p, seq(|p|, _ => m));
  }

  /** output[tau:tau + len(q)] += q. */
  function AddChunk(output: seq<real>, tau: nat, q: seq<real>): (r: seq<real>)
    requires tau + |q| <= |output|
    ensures |r| == |output|
    ensures forall t :: 0 <= t < |output| ==> r[t] == if tau <= t < tau + |q| then output[t] + q[t - tau] else output[t]
  {
    seq(|output|, t requires 0 <= t < |output| => if tau <= t < tau + |q| then output[t] + q[t - tau] else output[t])
  }

  /** The signal with a chunk added is the part before it, the sum over the chunk's window, and the part after it. */
  lemma AddChunkPieces(output: seq<real>, tau: nat, q: seq<real>)
    requires tau + |q| <= |output|
    ensures AddChunk(output, tau, q) == output[..tau] + Add(output[tau..tau + |q|], q) + output[tau + |q|..]
  {
  }

  /** The sum of three consecutive pieces. */
  lemma SumThree(a: seq<real>, b: seq<real>, c: seq<real>)
    ensures Sum(a + b + c) == Sum(a) + Sum(b) + Sum(c)
  {
    SumConcat(a + b, c);
    SumConcat(a, b);
  }

  /** Adding a chunk adds its sum to the sum of the signal. */
  lemma SumAddChunk(output: seq<real>, tau: nat, q: seq<real>)
    requires tau + |q| <= |output|
    ensures Sum(AddChunk(output, tau, q)) == Sum(output) + Sum(q)
  {
    var hi := tau + |q|;
    var before, middle, after := output[..tau], output[tau..hi], output[hi..];
    assert output == before + middle + after;
    AddChunkPieces(output, tau, q);
    SumThree(before, middle, after);
    SumThree(before, Add(middle, q), after);
    SumAdd(middle, q);
  }

  // ---------------------------------------------------------------------
  // The frame loop (lines 190-243)

  /** The variables the loop carries: counter, the eigen-decompositions, output_data and the skin filter's face. */
  datatype Rotation = Rotation(counter: nat, eigen: seq<Eigen>, output: seq<real>, model: Image)

  /** nb entries of 3 x 3 decompositions and nb output samples. */
  ghost predicate Sized(st: Rotation, nb: nat)
  {
    |st.eigen| == nb && |st.output| == nb && Shaped(st.eigen, 0, nb)
  }

  /** The zero decomposition numpy.zeros leaves in eigenvalues[:, t] and eigenvectors[:, :, t]. */
  function ZeroEigen(): (e: Eigen)
    ensures EigenShape(e, 3)
  {
    Eigen([0.0, 0.0, 0.0], [[0.0, 0.0, 0.0], [0.0, 0.0, 0.0], [0.0, 0.0, 0.0]])
  }

  /** The state before the loop. */
  function Initial(nb: nat): (st: Rotation)
    ensures Sized(st, nb) && st.counter == 0 && st.output == Zeros(nb)
  {
    Rotation(0, seq(nb, _ => ZeroEigen()), Zeros(nb), [])
  }

  /** Rotate may run on st: its decompositions are 3 x 3 and counter is within output_data. */
  ghost predicate Ready(st: Rotation)
  {
    Sized(st, |st.output|) && st.counter < |st.output|
  }

  /** What the frame loop relies on in one step: the sizes kept, counter advanced, later samples untouched, the sum kept. */
  ghost predicate Advances(st: Rotation, stride: int, r: Result<Rotation>)
  {
    r.Ok? ==>
      Sized(r.value, |st.output|) && r.value.counter == st.counter + 1 &&
      (forall t :: st.counter <= t < |st.output| ==> r.value.output[t] == st.output[t]) &&
      (st.counter < stride ==> r.value.output == st.output) &&
      Sum(r.value.output) == Sum(st.output)
  }

  /**
   * Lines 200-232: the skin pixels of frame i (the skin model re-estimated
   * on the first frame, or on every frame with --skininit), and the search
   * back in time when there are none.
   */
  function FrameSkin(video: seq<Image>, i: nat, counter: nat, model: Image, boxes: seq<Box>, s: Settings, lib: Library): (r: Result<Skin>)
    requires i < |video|
    ensures r.Ok? ==> r.value.count > 0 && IsMatrix(r.value.pixels, 3, r.value.count)
    ensures GetSkinPixels(video[i], i, video[i], counter == 0 || s.skininit, model, boxes, s.threshold, lib).Err? ==> r.Err?
  {
    match GetSkinPixels(video[i], i, video[i], counter == 0 || s.skininit, model, boxes, s.threshold, lib)
    case Err(e) => Err(e)
    case Ok(first) => if first.count == 0 then SearchBack(video, boxes, i, 1, video[i], first.model, s, lib) else Ok(first)
  }

  /**
   * Lines 236-249: the decomposition e stored at counter, and from counter =
   * stride on the zero-mean chunk added to output_data[counter - stride:counter].
   */
  function Accumulate(st: Rotation, e: Eigen, model: Image, stride: int, sqrt: real -> real, std: StdDev): (r: Result<Rotation>)
    requires Ready(st) && EigenShape(e, 3)
    ensures r.Err? <==> st.counter >= stride && stride < 0
    ensures r.Ok? ==> r.value.eigen == st.eigen[st.counter := e] && r.value.model == model
  {
    var eigen := st.eigen[st.counter := e];
    assert Shaped(eigen, 0, |eigen|);
    if st.counter < stride then Ok(Rotation(st.counter + 1, eigen, st.output, model))
    else if stride < 0 then Err("negative dimensions are not allowed")
    else
      var tau := st.counter - stride;
      var chunk := Centered(PSignal(eigen, st.counter, stride, sqrt, std));
      Ok(Rotation(st.counter + 1, eigen, AddChunk(st.output, tau, chunk), model))
  }

  /** Accumulate keeps the sizes, advances the counter, leaves the samples from counter on alone and keeps the sum. */
  lemma AccumulateAdvances(st: Rotation, e: Eigen, model: Image, stride: int, sqrt: real -> real, std: StdDev)
    requires Ready(st) && EigenShape(e, 3)
    ensures Advances(st, stride, Accumulate(st, e, model, stride, sqrt, std))
  {
    var eigen := st.eigen[st.counter := e];
    assert Shaped(eigen, 0, |eigen|);
    if 0 <= stride <= st.counter {
      AccumulateAdds(st, e, model, stride, sqrt, std);
      ChunkAdvances(st, eigen, model, stride, Centered(PSignal(eigen, st.counter, stride, sqrt, std)));
    } else {
      AccumulateCases(st, e, model, stride, sqrt, std);
    }
  }

  /** Adding a zero-sum chunk of stride samples that ends at counter is a step that advances. */
  lemma ChunkAdvances(st: Rotation, eigen: seq<Eigen>, model: Image, stride: nat, chunk: seq<real>)
    requires Ready(st) && |eigen| == |st.output| && Shaped(eigen, 0, |eigen|)
    requires |chunk| == stride <= st.counter && Sum(chunk) == 0.0
    ensures Advances(st, stride, Ok(Rotation(st.counter + 1, eigen, AddChunk(st.output, st.counter - stride, chunk), model)))
  {
    SumAddChunk(st.output, st.counter - stride, chunk);
  }

  /** Accumulate before the stride and on a negative stride, unfolded once for the in-place version. */
  lemma AccumulateCases(st: Rotation, e: Eigen, model: Image, stride: int, sqrt: real -> real, std: StdDev)
    requires Ready(st) && EigenShape(e, 3)
    ensures st.counter < stride ==> Accumulate(st, e, model, stride, sqrt, std) == Ok(Rotation(st.counter + 1, st.eigen[st.counter := e], st.output, model))
    ensures st.counter >= stride && stride < 0 ==> Accumulate(st, e, model, stride, sqrt, std) == Err("negative dimensions are not allowed")
  {
  }

  /** From the stride on, Accumulate adds the centred build_P of the window to output_data[tau:counter]. */
  lemma AccumulateAdds(st: Rotation, e: Eigen, model: Image, stride: nat, sqrt: real -> real, std: StdDev)
    requires Ready(st) && EigenShape(e, 3) && stride <= st.counter
    ensures Shaped(st.eigen[st.counter := e], st.counter - stride, st.counter)
    ensures Accumulate(st, e, model, stride, sqrt, std) ==
      Ok(Rotation(st.counter + 1, st.eigen[st.counter := e],
                  AddChunk(st.output, st.counter - stride, Centered(PSignal(st.eigen[st.counter := e], st.counter, stride, sqrt, std))), model))
  {
    var eigen := st.eigen[st.counter := e];
    assert Shaped(eigen, st.counter - stride, st.counter) by { assert Shaped(eigen, 0, |eigen|); }
    var chunk := Centered(PSignal(eigen, st.counter, stride, sqrt, std));
    assert Accumulate(st, e, model, stride, sqrt, std) == Ok(Rotation(st.counter + 1, eigen, AddChunk(st.output, st.counter - stride, chunk), model));
  }

  /** The body of the loop for a frame i in the range. */
  function Rotate(st: Rotation, video: seq<Image>, i: nat, boxes: seq<Box>, s: Settings, lib: Library): (r: Result<Rotation>)
    requires i < |video| && Ready(st)
    ensures Advances(st, s.stride, r)
    ensures st.counter >= s.stride && s.stride < 0 ==> r.Err?
  {
    match FrameSkin(video, i, st.counter, st.model, boxes, s, lib)
    case Err(e) => Err(e)
    case Ok(skin) =>
      var e := GetEigen(skin.pixels, skin.count, lib.eig).value;
      AccumulateAdvances(st, e, skin.model, s.stride, lib.sqrt, lib.std);
      Accumulate(st, e, skin.model, s.stride, lib.sqrt, lib.std)
  }

  /** Once the skin of the frame is known, the step is the accumulation of its decomposition. */
  lemma RotateWithSkin(st: Rotation, video: seq<Image>, i: nat, boxes: seq<Box>, s: Settings, lib: Library, skin: Skin)
    requires i < |video| && Ready(st)
    requires FrameSkin(video, i, st.counter, st.model, boxes, s, lib) == Ok(skin)
    ensures Rotate(st, video, i, boxes, s, lib) == Accumulate(st, GetEigen(skin.pixels, skin.count, lib.eig).value, skin.model, s.stride, lib.sqrt, lib.std)
  {
  }

  /**
   * The frame loop of the script over frames 0 .. k - 1, or the exception
   * that stopped it, with nb_final_frames = endIndex - start.
   */
  function Rotations(video: seq<Image>, boxes: seq<Box>, endIndex: int, s: Settings, lib: Library, k: nat): (r: Result<Rotation>)
    requires k <= |video| && endIndex <= |video| && endIndex - s.start >= 0
    ensures r.Ok? ==> Sized(r.value, endIndex - s.start) && r.value.counter == Processed(k, s.start, endIndex)
    decreases k, 0
  {
    if k == 0 then Ok(Initial(endIndex - s.start))
    else Visited(video, boxes, endIndex, s, lib, k - 1)
  }

  /** The loop once its body has run on frame i: the step for a frame in start .. end - 1, the same state otherwise. */
  function Visited(video: seq<Image>, boxes: seq<Box>, endIndex: int, s: Settings, lib: Library, i: nat): (r: Result<Rotation>)
    requires i < |video| && endIndex <= |video| && endIndex - s.start >= 0
    ensures r.Ok? ==> Sized(r.value, endIndex - s.start) && r.value.counter == Processed(i + 1, s.start, endIndex)
    decreases i, 2
  {
    if s.start <= i < endIndex then Stepped(video, boxes, endIndex, s, lib, i)
    else Rotations(video, boxes, endIndex, s, lib, i)
  }

  /** Rotate on the state the loop reaches frame i with, for a frame i in the range. */
  function Stepped(video: seq<Image>, boxes: seq<Box>, endIndex: int, s: Settings, lib: Library, i: nat): (r: Result<Rotation>)
    requires i < |video| && endIndex <= |video| && endIndex - s.start >= 0
    requires s.start <= i < endIndex
    ensures r.Ok? ==> Sized(r.value, endIndex - s.start) && r.value.counter == Processed(i + 1, s.start, endIndex)
    decreases i, 1
  {
    match Rotations(video, boxes, endIndex, s, lib, i)
    case Err(e) => Err(e)
    case Ok(st) => Rotate(st, video, i, boxes, s, lib)
  }

  /** One more frame: the step when the frame is in start .. end - 1, nothing otherwise, and an exception stays. */
  lemma RotationsNext(video: seq<Image>, boxes: seq<Box>, endIndex: int, s: Settings, lib: Library, k: nat)
    requires k < |video| && endIndex <= |video| && endIndex - s.start >= 0
    ensures Rotations(video, boxes, endIndex, s, lib, k).Err? ==>
      Rotations(video, boxes, endIndex, s, lib, k + 1) == Rotations(video, boxes, endIndex, s, lib, k)
    ensures Rotations(video, boxes, endIndex, s, lib, k).Ok? ==>
      var st := Rotations(video, boxes, endIndex, s, lib, k).value;
      (Ready(st) || !(s.start <= k < endIndex)) &&
      Rotations(video, boxes, endIndex, s, lib, k + 1) ==
        if s.start <= k < endIndex then Rotate(st, video, k, boxes, s, lib) else Ok(st)
  {
    assert Rotations(video, boxes, endIndex, s, lib, k + 1) == Visited(video, boxes, endIndex, s, lib, k);
    if s.start <= k < endIndex {
      assert Visited(video, boxes, endIndex, s, lib, k) == Stepped(video, boxes, endIndex, s, lib, k);
    }
  }

  /** Frames outside start .. end - 1 change nothing: the loop may stop at any frame past the end. */
  lemma {:induction false} RotationsSkip(video: seq<Image>, boxes: seq<Box>, endIndex: int, s: Settings, lib: Library, j: nat, k: nat)
    requires j <= k <= |video| && endIndex <= |video| && endIndex - s.start >= 0
    requires k <= s.start || endIndex <= j
    ensures Rotations(video, boxes, endIndex, s, lib, k) == Rotations(video, boxes, endIndex, s, lib, j)
    decreases k
  {
    if k > j {
      var previous: nat := k - 1;
      RotationsSkip(video, boxes, endIndex, s, lib, j, previous);
      RotationsNext(video, boxes, endIndex, s, lib, previous);
    }
  }

  /** Once the loop has raised, later frames do not change the exception. */
  lemma {:induction false} RotationsStop(video: seq<Image>, boxes: seq<Box>, endIndex: int, s: Settings, lib: Library, j: nat, k: nat)
    requires j <= k <= |video| && endIndex <= |video| && endIndex - s.start >= 0
    requires Rotations(video, boxes, endIndex, s, lib, j).Err?
    ensures Rotations(video, boxes, endIndex, s, lib, k) == Rotations(video, boxes, endIndex, s, lib, j)
    decreases k
  {
    if k > j {
      var previous: nat := k - 1;
      RotationsStop(video, boxes, endIndex, s, lib, j, previous);
      RotationsNext(video, boxes, endIndex, s, lib, previous);
    }
  }

  /**
   * The pulse is a sum of zero-mean chunks, so it sums to zero; the sample
   * of the last frame processed, and every later one, is never written.
   */
  lemma {:induction false} RotationsZeroMean(video: seq<Image>, boxes: seq<Box>, endIndex: int, s: Settings, lib: Library, k: nat)
    requires k <= |video| && endIndex <= |video| && endIndex - s.start >= 0
    requires Rotations(video, boxes, endIndex, s, lib, k).Ok?
    ensures var st := Rotations(video, boxes, endIndex, s, lib, k).value;
      Sum(st.output) == 0.0 && forall t :: 0 <= t < |st.output| && st.counter <= t + 1 ==> st.output[t] == 0.0
    decreases k
  {
    if k == 0 {
      SumConstant(Zeros(endIndex - s.start), 0.0);
      assert Rotations(video, boxes, endIndex, s, lib, k).value.output == Zeros(endIndex - s.start);
    } else {
      var previous: nat := k - 1;
      RotationsNext(video, boxes, endIndex, s, lib, previous);
      RotationsZeroMean(video, boxes, endIndex, s, lib, previous);
    }
  }

  /** With no more frames processed than the stride nothing is ever added: the pulse is all zeros. */
  lemma {:induction false} RotationsShortVideo(video: seq<Image>, boxes: seq<Box>, endIndex: int, s: Settings, lib: Library, k: nat)
    requires k <= |video| && endIndex <= |video| && endIndex - s.start >= 0
    requires Rotations(video, boxes, endIndex, s, lib, k).Ok?
    requires Processed(k, s.start, endIndex) <= s.stride
    ensures Rotations(video, boxes, endIndex, s, lib, k).value.output == Zeros(endIndex - s.start)
    decreases k
  {
    if k > 0 {
      var previous: nat := k - 1;
      RotationsNext(video, boxes, endIndex, s, lib, previous);
      RotationsShortVideo(video, boxes, endIndex, s, lib, previous);
    }
  }

  /** FrameSkin, imperatively: get_skin_pixels, then the search back when it found no skin. */
  method FindFrameSkin(video: seq<Image>, i: nat, counter: nat, model: Image, boxes: seq<Box>, s: Settings, lib: Library)
    returns (r: Result<Skin>)
    requires i < |video|
    ensures r == FrameSkin(video, i, counter, model, boxes, s, lib)
  {
    r := GetSkinPixels(video[i], i, video[i], counter == 0 || s.skininit, model, boxes, s.threshold, lib);
    if r.Ok? && r.value.count == 0 {
      r := FindSkin(video, boxes, i, video[i], r.value.model, s, lib);
    }
  }

  /** output[tau:tau + len(chunk)] += chunk, in place. */
  method AddChunkInPlace(output: array<real>, tau: nat, chunk: seq<real>)
    requires tau + |chunk| <= output.Length
    modifies output
    ensures output[..] == AddChunk(old(output[..]), tau, chunk)
  {
    ghost var before := output[..];
    for t := tau to tau + |chunk|
      invariant forall u :: 0 <= u < output.Length ==> output[u] == if tau <= u < t then before[u] + chunk[u - tau] else before[u]
    {
      output[t] := output[t] + chunk[t - tau];
    }
    assert output[..] == AddChunk(before, tau, chunk);
  }

  /** Accumulate on the state st whose samples the eigen and output_data arrays hold, in place on the arrays. */
  method AccumulateInPlace(eigen: array<Eigen>, output: array<real>, counter: nat, ghost st: Rotation,
                           e: Eigen, model: Image, stride: int, sqrt: real -> real, std: StdDev)
    returns (failure: Option<string>)
    requires Ready(st) && st.counter == counter && st.eigen == eigen[..] && st.output == output[..] && EigenShape(e, 3)
    modifies eigen, output
    ensures failure.Some? ==> Accumulate(st, e, model, stride, sqrt, std) == Err(failure.value)
    ensures failure.None? ==> Accumulate(st, e, model, stride, sqrt, std) == Ok(Rotation(counter + 1, eigen[..], output[..], model))
  {
    if 0 <= stride <= counter {
      AccumulateAdds(st, e, model, stride, sqrt, std);
      StoreAndAdd(eigen, output, counter, e, stride, sqrt, std);
      return None;
    }
    AccumulateCases(st, e, model, stride, sqrt, std);
    if stride < 0 {
      return Some("negative dimensions are not allowed");
    }
    eigen[counter] := e;
    assert eigen[..] == st.eigen[counter := e];
    failure := None;
  }

  /** Lines 236 and 244-249 from counter = stride on: e stored at counter and the centred chunk added, in place. */
  method StoreAndAdd(eigen: array<Eigen>, output: array<real>, counter: nat, e: Eigen, stride: nat, sqrt: real -> real, std: StdDev)
    requires stride <= counter < eigen.Length && Shaped(eigen[..][counter := e], counter - stride, counter) && counter <= output.Length
    modifies eigen, output
    ensures eigen[..] == old(eigen[..])[counter := e]
    ensures output[..] == AddChunk(old(output[..]), counter - stride, Centered(PSignal(eigen[..], counter, stride, sqrt, std)))
  {
    eigen[counter] := e;
    AddPulse(eigen[..], output, counter, stride, sqrt, std);
  }

  /** Lines 244-247: the zero-mean build_P of frames tau .. counter - 1 added to output_data[tau:counter]. */
  method AddPulse(eigen: seq<Eigen>, output: array<real>, counter: nat, stride: nat, sqrt: real -> real, std: StdDev)
    requires stride <= counter <= output.Length && Shaped(eigen, counter - stride, counter)
    modifies output
    ensures output[..] == AddChunk(old(output[..]), counter - stride, Centered(PSignal(eigen, counter, stride, sqrt, std)))
  {
    var p := BuildP(counter, stride, eigen, sqrt, std);
    AddChunkInPlace(output, counter - stride, Centered(p));
  }

  /** One frame of the loop, in place on the eigen and output_data arrays; it returns the face the skin filter was estimated on. */
  method RotateFrame(eigen: array<Eigen>, output: array<real>, counter: nat, model: Image,
                     video: seq<Image>, i: nat, boxes: seq<Box>, s: Settings, lib: Library)
    returns (r: Result<Image>)
    requires i < |video| && Ready(Rotation(counter, eigen[..], output[..], model))
    modifies eigen, output
    ensures r.Err? ==> Rotate(Rotation(counter, old(eigen[..]), old(output[..]), model), video, i, boxes, s, lib) == Err(r.reason)
    ensures r.Ok? ==>
      Rotate(Rotation(counter, old(eigen[..]), old(output[..]), model), video, i, boxes, s, lib) == Ok(Rotation(counter + 1, eigen[..], output[..], r.value))
  {
    ghost var st := Rotation(counter, eigen[..], output[..], model);
    var skin := FindFrameSkin(video, i, counter, model, boxes, s, lib);
    if skin.Err? {
      return Err(skin.reason);
    }
    var e := GetEigen(skin.value.pixels, skin.value.count, lib.eig);
    RotateWithSkin(st, video, i, boxes, s, lib, skin.value);
    var failure := AccumulateInPlace(eigen, output, counter, st, e.value, skin.value.model, s.stride, lib.sqrt, lib.std);
    if failure.Some? {
      return Err(failure.value);
    }
    r := Ok(skin.value.model);
  }

  /** Frame i of the loop, in place: the step when i is in the range, nothing otherwise. */
  method VisitFrame(eigen: array<Eigen>, output: array<real>, counter: nat, model: Image,
                    video: seq<Image>, boxes: seq<Box>, endIndex: int, s: Settings, lib: Library, i: nat)
    returns (r: Result<(nat, Image)>)
    requires i < |video| && endIndex <= |video| && endIndex - s.start >= 0
    requires Rotations(video, boxes, endIndex, s, lib, i) == Ok(Rotation(counter, eigen[..], output[..], model))
    modifies eigen, output
    ensures r.Err? ==> Rotations(video, boxes, endIndex, s, lib, i + 1) == Err(r.reason)
    ensures r.Ok? ==> Rotations(video, boxes, endIndex, s, lib, i + 1) == Ok(Rotation(r.value.0, eigen[..], output[..], r.value.1))
  {
    RotationsNext(video, boxes, endIndex, s, lib, i);
    if s.start <= i < endIndex {
      var carried := RotateFrame(eigen, output, counter, model, video, i, boxes, s, lib);
      if carried.Err? {
        return Err(carried.reason);
      }
      r := Ok((counter + 1, carried.value));
    } else {
      r := Ok((counter, model));
    }
  }

  /** The loop over the frames of one video, on the eigen and output_data arrays; it stops past the end. */
  method LoopFrames(eigen: array<Eigen>, output: array<real>, video: seq<Image>, boxes: seq<Box>, endIndex: int, s: Settings, lib: Library)
    returns (r: Result<Rotation>)
    requires endIndex <= |video| && endIndex - s.start >= 0
    requires Rotations(video, boxes, endIndex, s, lib, 0) == Ok(Rotation(0, eigen[..], output[..], []))
    modifies eigen, output
    ensures r == Rotations(video, boxes, endIndex, s, lib, |video|)
  {
    var counter: nat := 0;
    var model: Image := [];
    for i := 0 to |video|
      invariant Rotations(video, boxes, endIndex, s, lib, i) == Ok(Rotation(counter, eigen[..], output[..], model))
    {
      if i > endIndex {
        RotationsSkip(video, boxes, endIndex, s, lib, i, |video|);
        break;
      }
      var visited := VisitFrame(eigen, output, counter, model, video, boxes, endIndex, s, lib, i);
      if visited.Err? {
        RotationsStop(video, boxes, endIndex, s, lib, i + 1, |video|);
        return Err(visited.reason);
      }
      counter, model := visited.value.0, visited.value.1;
    }
    r := Ok(Rotation(counter, eigen[..], output[..], model));
  }

  /** Lines 190-243: eigenvalues, eigenvectors and output_data start as zeros, then the loop runs over the frames. */
  method RotationLoop(video: seq<Image>, boxes: seq<Box>, endIndex: int, s: Settings, lib: Library) returns (r: Result<Rotation>)
    requires endIndex <= |video| && endIndex - s.start >= 0
    ensures r == Rotations(video, boxes, endIndex, s, lib, |video|)
  {
    var nb: nat := endIndex - s.start;
    var eigen := new Eigen[nb](_ => ZeroEigen());
    var output := new real[nb](_ => 0.0);
    assert eigen[..] == Initial(nb).eigen && output[..] == Initial(nb).output;
    r := LoopFrames(eigen, output, video, boxes, endIndex, s, lib);
  }

  // ---------------------------------------------------------------------
  // One object and the script (lines 148-267)

  /** One database object: does the output exist, the frames and the stored face boxes. */
  datatype VideoObject = VideoObject(outputExists: bool, video: seq<Image>, boxes: seq<Box>)

  /** The body of the loop over objects, or the exception it raises. */
  function Process(obj: VideoObject, s: Settings, lib: Library): (r: Result<Outcome<seq<real>>>)
    ensures obj.outputExists && !s.overwrite ==> r == Ok(Skipped("already exists"))
    ensures !(obj.outputExists && !s.overwrite) && EndIndex(s.end, |obj.video|) > |obj.video| ==>
      r == Ok(Skipped("not long enough"))
    ensures !(obj.outputExists && !s.overwrite) && EndIndex(s.end, |obj.video|) <= |obj.video| &&
            EndIndex(s.end, |obj.video|) < s.start ==>
      r == Err("negative dimensions are not allowed")
    ensures r.Ok? && r.value.Saved? ==>
      |r.value.data| == EndIndex(s.end, |obj.video|) - s.start
  {
    if obj.outputExists && !s.overwrite then Ok(Skipped("already exists"))
    else
      var endIndex := EndIndex(s.end, |obj.video|);
      if endIndex > |obj.video| then Ok(Skipped("not long enough"))
      else if endIndex - s.start < 0 then Err("negative dimensions are not allowed")
      else match Rotations(obj.video, obj.boxes, endIndex, s, lib, |obj.video|)
        case Err(e) => Err(e)
        case Ok(st) => Ok(Saved(st.output))
  }

  /** The pulse saved for an object sums to zero. */
  lemma ProcessZeroMean(obj: VideoObject, s: Settings, lib: Library)
    requires Process(obj, s, lib).Ok? && Process(obj, s, lib).value.Saved?
    ensures Sum(Process(obj, s, lib).value.data) == 0.0
  {
    var endIndex := EndIndex(s.end, |obj.video|);
    RotationsZeroMean(obj.video, obj.boxes, endIndex, s, lib, |obj.video|);
  }

  /** One object, imperatively. */
  method ProcessObject(obj: VideoObject, s: Settings, lib: Library) returns (r: Result<Outcome<seq<real>>>)
    ensures r == Process(obj, s, lib)
  {
    if obj.outputExists && !s.overwrite {
      return Ok(Skipped("already exists"));
    }
    var endIndex := EndIndex(s.end, |obj.video|);
    if endIndex > |obj.video| {
      return Ok(Skipped("not long enough"));
    }
    if endIndex - s.start < 0 {
      return Err("negative dimensions are not allowed");
    }
    var rotation := RotationLoop(obj.video, obj.boxes, endIndex, s, lib);
    if rotation.Err? {
      return Err(rotation.reason);
    }
    return Ok(Saved(rotation.value.output));
  }

  /** The whole script: every object in turn until one raises. */
  method SpatialSubspaceRotationScript(objects: seq<VideoObject>, s: Settings, lib: Library)
    returns (outcomes: seq<Outcome<seq<real>>>, failure: Option<string>)
    ensures (outcomes, failure) == Run(objects, (obj: VideoObject) => Process(obj, s, lib))
  {
    var process := (obj: VideoObject) => Process(obj, s, lib);
    outcomes, failure := [], None;
    for k := 0 to |objects|
      invariant |outcomes| == k
      invariant forall i :: 0 <= i < k ==> process(objects[i]) == Ok(outcomes[i])
    {
      var outcome := ProcessObject(objects[k], s, lib);
      if outcome.Err? {
        failure := Some(outcome.reason);
        RunStopsAt(objects, process, outcomes);
        return;
      }
      outcomes := outcomes + [outcome.value];
    }
    RunStopsAt(objects, process, outcomes);
  }
}
