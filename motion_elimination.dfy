/*
 * bob/rppg/cvpr14/script/motion_elimination.py: the third step of Li's
 * CVPR'14 pipeline.  In one mode the script pools the standard deviations
 * of the segments of every illumination-corrected green signal and picks
 * a threshold near the top of that pool; in the other it reads a threshold
 * and, object by object, drops the segments above it and glues the rest
 * back into one signal.  numpy.std(..., ddof=1) is a parameter.
 */
module MotionElimination {
  import opened Numerics
  import opened Scripts
  import opened MotionUtils

  /**
   * One object of the database as the script sees it: does its output file
   * exist, the green signal if its file loads, and whether numpy.sum of
   * that signal is NaN.
   */
  datatype ColorFile = ColorFile(outputExists: bool, color: Option<seq<real>>, hasNan: bool)

  // ---------------------------------------------------------------------
  // Counting segments against a threshold

  /** The number of values strictly above t: the segments a threshold t drops. */
  function CountAbove(s: seq<real>, t: real): (c: nat)
    ensures c <= |s|
    decreases |s|
  {
    if |s| == 0 then 0 else (if s[0] > t then 1 else 0) + CountAbove(s[1..], t)
  }

  /** The number of values at or above t. */
  function CountAtLeast(s: seq<real>, t: real): (c: nat)
    ensures c <= |s|
    decreases |s|
  {
    if |s| == 0 then 0 else (if s[0] >= t then 1 else 0) + CountAtLeast(s[1..], t)
  }

  lemma {:induction false} CountAboveAppend(s: seq<real>, x: real, t: real)
    ensures CountAbove(s + [x], t) == CountAbove(s, t) + (if x > t then 1 else 0)
    decreases |s|
  {
    if |s| > 0 {
      assert (s + [x])[1..] == s[1..] + [x];
      CountAboveAppend(s[1..], x, t);
    }
  }

  lemma {:induction false} CountAboveConcat(a: seq<real>, b: seq<real>, t: real)
    ensures CountAbove(a + b, t) == CountAbove(a, t) + CountAbove(b, t)
    decreases |a|
  {
    if |a| == 0 {
      assert a + b == b;
    } else {
      assert (a + b)[1..] == a[1..] + b;
      CountAboveConcat(a[1..], b, t);
    }
  }

  // ---------------------------------------------------------------------
  // sorted(all_stds, reverse=True)

  ghost predicate NonIncreasing(s: seq<real>)
  {
    forall i, j :: 0 <= i < j < |s| ==> s[i] >= s[j]
  }

  /** x placed before the first value it is not smaller than. */
  function InsertDesc(x: real, s: seq<real>): (r: seq<real>)
    ensures |r| == |s| + 1
    ensures forall i :: 0 <= i < |r| ==> r[i] == x || r[i] in s
    ensures multiset(r) == multiset(s) + multiset{x}
    decreases |s|
  {
    if |s| == 0 || x >= s[0] then [x] + s
    else
      assert s == [s[0]] + s[1..];
      [s[0]] + InsertDesc(x, s[1..])
  }

  lemma {:induction false} NonIncreasingTail(s: seq<real>)
    requires |s| > 0 && NonIncreasing(s)
    ensures NonIncreasing(s[1..])
  {
    forall i, j | 0 <= i < j < |s[1..]| ensures s[1..][i] >= s[1..][j] {
      assert s[1..][i] == s[i + 1] && s[1..][j] == s[j + 1];
    }
  }

  /** Inserting into a non-increasing sequence keeps it non-increasing. */
  lemma {:induction false} InsertDescSorted(x: real, s: seq<real>)
    requires NonIncreasing(s)
    ensures NonIncreasing(InsertDesc(x, s))
    decreases |s|
  {
    if |s| > 0 && x < s[0] {
      NonIncreasingTail(s);
      InsertDescSorted(x, s[1..]);
      var rest := InsertDesc(x, s[1..]);
      forall k | 0 <= k < |rest| ensures rest[k] <= s[0] {
        if rest[k] != x {
          var m :| 0 <= m < |s[1..]| && s[1..][m] == rest[k];
          assert s[m + 1] == rest[k];
        }
      }
      assert InsertDesc(x, s) == [s[0]] + rest;
    }
  }

  /** Python's sorted(s, reverse=True): equal reals are interchangeable, so stability does not show. */
  function SortDesc(s: seq<real>): (r: seq<real>)
    ensures |r| == |s| && NonIncreasing(r)
    ensures multiset(r) == multiset(s)
    decreases |s|
  {
    if |s| == 0 then []
    else
      assert s == [s[0]] + s[1..];
      var sorted := SortDesc(s[1..]);
      InsertDescSorted(s[0], sorted);
      InsertDesc(s[0], sorted)
  }

  lemma {:induction false} CountAboveInsert(x: real, s: seq<real>, t: real)
    ensures CountAbove(InsertDesc(x, s), t) == CountAbove(s, t) + (if x > t then 1 else 0)
    decreases |s|
  {
    if |s| > 0 && x < s[0] {
      var r := InsertDesc(x, s);
      assert r[1..] == InsertDesc(x, s[1..]);
      CountAboveInsert(x, s[1..], t);
    }
  }

  /** Sorting does not change how many values lie above a threshold. */
  lemma {:induction false} CountAboveSorted(s: seq<real>, t: real)
    ensures CountAbove(SortDesc(s), t) == CountAbove(s, t)
    decreases |s|
  {
    if |s| > 0 {
      CountAboveSorted(s[1..], t);
      CountAboveInsert(s[0], SortDesc(s[1..]), t);
    }
  }

  lemma {:induction false} CountAtLeastInsert(x: real, s: seq<real>, t: real)
    ensures CountAtLeast(InsertDesc(x, s), t) == CountAtLeast(s, t) + (if x >= t then 1 else 0)
    decreases |s|
  {
    if |s| > 0 && x < s[0] {
      var r := InsertDesc(x, s);
      assert r[1..] == InsertDesc(x, s[1..]);
      CountAtLeastInsert(x, s[1..], t);
    }
  }

  lemma {:induction false} CountAtLeastSorted(s: seq<real>, t: real)
    ensures CountAtLeast(SortDesc(s), t) == CountAtLeast(s, t)
    decreases |s|
  {
    if |s| > 0 {
      CountAtLeastSorted(s[1..], t);
      CountAtLeastInsert(s[0], SortDesc(s[1..]), t);
    }
  }

  /** In a non-increasing sequence at most c values exceed the value at c, and at least c + 1 reach it. */
  lemma {:induction false} CountsAtPosition(r: seq<real>, c: nat)
    requires NonIncreasing(r) && c < |r|
    ensures CountAbove(r, r[c]) <= c
    ensures CountAtLeast(r, r[c]) >= c + 1
    decreases c
  {
    if c == 0 {
      NoneAbove(r, r[0]);
      assert r[0] >= r[0];
    } else {
      assert r[1..][c - 1] == r[c];
      NonIncreasingTail(r);
      CountsAtPosition(r[1..], c - 1);
      assert r[0] >= r[c];
    }
  }

  lemma {:induction false} NoneAbove(s: seq<real>, t: real)
    requires forall k :: 0 <= k < |s| ==> s[k] <= t
    ensures CountAbove(s, t) == 0
    decreases |s|
  {
    if |s| > 0 {
      assert forall k :: 0 <= k < |s[1..]| ==> s[1..][k] == s[k + 1];
      NoneAbove(s[1..], t);
    }
  }

  // ---------------------------------------------------------------------
  // Computing the threshold (motion_elimination.py:121-152)

  /** numpy.std(green_segments, 1, ddof=1): one deviation per whole segment. */
  function SegmentStds(color: seq<real>, seglength: int, std: StdDev): (r: Result<seq<real>>)
    ensures r.Ok? <==> seglength > 0
    ensures r.Ok? ==> (|r.value| == |color| / seglength &&
      forall k :: 0 <= k < |r.value| ==> r.value[k] == std(BuildSegments(color, seglength).value.rows[k]))
  {
    match BuildSegments(color, seglength)
    case Err(e) => Err(e)
    case Ok(s) => Ok(seq(|s.rows|, k requires 0 <= k < |s.rows| => std(s.rows[k])))
  }

  /** The body of the first loop: the deviations of one object's segments, or why it is skipped. */
  function ObjectStds(obj: ColorFile, seglength: int, std: StdDev): (r: Result<Outcome<seq<real>>>)
    ensures obj.color.None? ==> r == Ok(Skipped("no color signals file available"))
    ensures obj.color.Some? && obj.hasNan ==> r == Ok(Skipped("NaN in file"))
    ensures obj.color.Some? && !obj.hasNan ==>
      (r.Ok? <==> seglength > 0) && (r.Ok? ==> r.value.Saved? && Ok(r.value.data) == SegmentStds(obj.color.value, seglength, std))
  {
    match obj.color
    case None => Ok(Skipped("no color signals file available"))
    case Some(color) =>
      if obj.hasNan then Ok(Skipped("NaN in file"))
      else match SegmentStds(color, seglength, std)
        case Err(e) => Err(e)
        case Ok(stds) => Ok(Saved(stds))
  }

  /** all_stds: the deviations of every object that was not skipped, in order. */
  function Pooled(outcomes: seq<Outcome<seq<real>>>): seq<real>
    decreases |outcomes|
  {
    if |outcomes| == 0 then []
    else Pooled(outcomes[..|outcomes| - 1]) + (match outcomes[|outcomes| - 1] case Saved(d) => d case Skipped(_) => [])
  }

  /** The position int(cutoff * len(all_stds)) + 1 that the threshold is read from. */
  function CutIndex(n: nat, cutoff: real): (c: int)
    ensures cutoff >= 0.0 ==> 1 <= c && (c - 1) as real <= cutoff * n as real < c as real
  {
    var x := cutoff * n as real;
    if cutoff >= 0.0 then
      ProductNonNegative(cutoff, n as real);
      Trunc(x) + 1
    else Trunc(x) + 1
  }

  /**
   * sorted_stds[cut_index]: the threshold, or the IndexError of a pool too
   * small for the cutoff.  A negative index (a negative cutoff) counts from
   * the end, as Python does.
   */
  function Threshold(allStds: seq<real>, cutoff: real): (r: Result<real>)
    ensures r.Ok? <==> -|allStds| <= CutIndex(|allStds|, cutoff) < |allStds|
    ensures r.Ok? ==> r.value in allStds
  {
    var sorted := SortDesc(allStds);
    match PyIndex(CutIndex(|allStds|, cutoff), |sorted|)
    case None => Err("list index out of range")
    case Some(i) =>
      assert sorted[i] in multiset(allStds);
      Ok(sorted[i])
  }

  /**
   * The threshold expresses the cutoff: with a non-negative cutoff at most
   * cut_index pooled segments lie above it (those are the ones pruning
   * drops), and at least cut_index + 1 reach it.
   */
  lemma {:induction false} ThresholdCountsAbove(allStds: seq<real>, cutoff: real)
    requires cutoff >= 0.0 && Threshold(allStds, cutoff).Ok?
    ensures CountAbove(allStds, Threshold(allStds, cutoff).value) <= CutIndex(|allStds|, cutoff)
    ensures CountAtLeast(allStds, Threshold(allStds, cutoff).value) >= CutIndex(|allStds|, cutoff) + 1
  {
    var c := CutIndex(|allStds|, cutoff);
    var sorted := SortDesc(allStds);
    var t := Threshold(allStds, cutoff).value;
    assert 0 <= c < |sorted| && t == sorted[c];
    CountsAtPosition(sorted, c);
    CountAboveSorted(allStds, t);
    CountAtLeastSorted(allStds, t);
  }

  lemma {:induction false} ProductNonNegative(a: real, b: real)
    requires a >= 0.0 && b >= 0.0
    ensures a * b >= 0.0
  {
  }

  /** The default cutoff of 0.05 on three segments reads the second largest deviation. */
  lemma {:induction false} ThresholdExample()
    ensures Threshold([3.0, 1.0, 2.0], 0.05) == Ok(2.0)
  {
    SortExample();
    assert CutIndex(3, 0.05) == 1;
  }

  lemma {:induction false} SortExample()
    ensures SortDesc([3.0, 1.0, 2.0]) == [3.0, 2.0, 1.0]
  {
    var s := [3.0, 1.0, 2.0];
    assert s[1..] == [1.0, 2.0] && s[1..][1..] == [2.0] && s[1..][1..][1..] == [];
    assert SortDesc([2.0]) == [2.0];
    assert InsertDesc(1.0, [2.0]) == [2.0, 1.0] by {
      assert [2.0][1..] == [];
    }
    assert InsertDesc(3.0, [2.0, 1.0]) == [3.0, 2.0, 1.0];
  }

  /** A pool of one segment is too small: cut_index is 1 whatever the cutoff below 1. */
  lemma {:induction false} ThresholdTooFewSegments(x: real, cutoff: real)
    requires 0.0 <= cutoff < 1.0
    ensures Threshold([x], cutoff).Err?
  {
    assert CutIndex(1, cutoff) == 1;
  }

  /** The first loop, extending all_stds object by object until one raises. */
  method CollectStds(objects: seq<ColorFile>, seglength: int, std: StdDev) returns (allStds: seq<real>, failure: Option<string>)
    ensures var run := Run(objects, (obj: ColorFile) => ObjectStds(obj, seglength, std));
      allStds == Pooled(run.0) && failure == run.1
  {
    var process := (obj: ColorFile) => ObjectStds(obj, seglength, std);
    allStds, failure := [], None;
    ghost var outcomes: seq<Outcome<seq<real>>> := [];
    var k := 0;
    while k < |objects|
      invariant k <= |objects| && |outcomes| == k
      invariant forall i :: 0 <= i < k ==> process(objects[i]) == Ok(outcomes[i])
      invariant allStds == Pooled(outcomes)
    {
      var r := ObjectStds(objects[k], seglength, std);
      match r
      case Err(e) =>
        failure := Some(e);
        RunStopsAt(objects, process, outcomes);
        return;
      case Ok(o) =>
        if o.Saved? {
          allStds := allStds + o.data;
        }
        assert (outcomes + [o])[..k] == outcomes;
        outcomes := outcomes + [o];
      k := k + 1;
    }
    RunStopsAt(objects, process, outcomes);
  }

  /** The threshold mode's result: the loop's exception, or the threshold the script writes. */
  function ComputedThreshold(objects: seq<ColorFile>, seglength: int, cutoff: real, std: StdDev): Result<real>
  {
    var run := Run(objects, (obj: ColorFile) => ObjectStds(obj, seglength, std));
    if run.1.Some? then Err(run.1.value) else Threshold(Pooled(run.0), cutoff)
  }

  // ---------------------------------------------------------------------
  // Eliminating motion (motion_elimination.py:155-219)

  /** The segments prune_segments keeps, in order. */
  function KeptSegments(rows: seq<seq<real>>, cols: nat, threshold: real, std: StdDev): (kept: seq<seq<real>>)
    requires Rect(rows, cols)
    ensures var idx := KeptRows(rows, |rows|, threshold, std);
      |kept| == |idx| && Rect(kept, cols) &&
      forall k :: 0 <= k < |idx| ==> idx[k] < |rows| && kept[k] == rows[idx[k]] && Stable(kept[k], threshold, std)
  {
    var idx := KeptRows(rows, |rows|, threshold, std);
    KeptRowsFacts(rows, |rows|, threshold, std);
    seq(|idx|, k requires 0 <= k < |idx| => rows[idx[k]])
  }

  /** The gap flags prune_segments returns with them. */
  function KeptGaps(rows: seq<seq<real>>, threshold: real, std: StdDev): (gaps: seq<bool>)
    ensures |gaps| == |KeptRows(rows, |rows|, threshold, std)|
  {
    KeptRowsFacts(rows, |rows|, threshold, std);
    GapFlags(rows, KeptRows(rows, |rows|, threshold, std), threshold, std)
  }

  /**
   * The body of the second loop: skip an existing output, a missing file, a
   * NaN signal or a signal with no stable segment; otherwise the kept
   * segments glued by build_final_signal_cvpr14 or build_final_signal.
   */
  function Eliminated(obj: ColorFile, overwrite: bool, seglength: int, threshold: real, cvpr14: bool, std: StdDev): (r: Result<Outcome<seq<real>>>)
    ensures obj.outputExists && !overwrite ==> r == Ok(Skipped("already exists"))
    ensures !(obj.outputExists && !overwrite) && obj.color.None? ==> r == Ok(Skipped("no color signals file available"))
    ensures !(obj.outputExists && !overwrite) && obj.color.Some? && obj.hasNan ==> r == Ok(Skipped("NaN in file"))
    ensures r.Err? <==> !(obj.outputExists && !overwrite) && obj.color.Some? && !obj.hasNan && seglength <= 0
    ensures r.Ok? && r.value.Saved? ==> (obj.color.Some? && seglength > 0 &&
      |r.value.data| == seglength * |KeptRows(BuildSegments(obj.color.value, seglength).value.rows, |obj.color.value| / seglength, threshold, std)|)
  {
    if obj.outputExists && !overwrite then Ok(Skipped("already exists"))
    else match obj.color
      case None => Ok(Skipped("no color signals file available"))
      case Some(color) =>
        if obj.hasNan then Ok(Skipped("NaN in file"))
        else match BuildSegments(color, seglength)
          case Err(e) => Err(e)
          case Ok(s) =>
            var kept := KeptSegments(s.rows, seglength, threshold, std);
            if |kept| == 0 then Ok(Skipped("All segments have been discared"))
            else
              var c := Collage(kept, seglength, KeptGaps(s.rows, threshold, std), !cvpr14);
              CollageAt(kept, seglength, KeptGaps(s.rows, threshold, std), !cvpr14, 0, 0);
              OffsetIsProduct(|kept|, seglength);
              Ok(Saved(c))
  }

  /**
   * What the saved signal is made of: its k-th block of seglength samples is
   * the k-th stable segment of the input (samples idx[k] * seglength
   * onwards, with a deviation at most the threshold) moved by one constant.
   */
  lemma {:induction false} EliminatedBlocks(obj: ColorFile, overwrite: bool, seglength: int, threshold: real, cvpr14: bool, std: StdDev, k: nat, j: nat)
    requires Eliminated(obj, overwrite, seglength, threshold, cvpr14, std).Ok?
    requires Eliminated(obj, overwrite, seglength, threshold, cvpr14, std).value.Saved?
    requires 0 <= j < seglength
    requires k < |KeptRows(BuildSegments(obj.color.value, seglength).value.rows, |obj.color.value| / seglength, threshold, std)|
    ensures var data := Eliminated(obj, overwrite, seglength, threshold, cvpr14, std).value.data;
      var rows := BuildSegments(obj.color.value, seglength).value.rows;
      var i := KeptRows(rows, |rows|, threshold, std)[k];
      i < |rows| && Stable(rows[i], threshold, std) &&
      Offset(k, seglength) + j < |data| && Offset(i, seglength) + j < |obj.color.value| &&
      data[Offset(k, seglength) + j] - data[Offset(k, seglength)] ==
        obj.color.value[Offset(i, seglength) + j] - obj.color.value[Offset(i, seglength)]
  {
    var color := obj.color.value;
    var s := BuildSegments(color, seglength).value;
    var kept := KeptSegments(s.rows, seglength, threshold, std);
    var gaps := KeptGaps(s.rows, threshold, std);
    var i := KeptRows(s.rows, |s.rows|, threshold, std)[k];
    CollageKeepsRowShape(kept, seglength, gaps, !cvpr14, k, j, 0);
    OffsetBefore(i, |s.rows|, seglength);
    OffsetIsProduct(|s.rows|, seglength);
  }

  /** With the corrected glueing the saved signal has no step where segments were dropped. */
  lemma {:induction false} EliminatedClosesGaps(obj: ColorFile, overwrite: bool, seglength: int, threshold: real, std: StdDev, k: nat)
    requires Eliminated(obj, overwrite, seglength, threshold, false, std).Ok?
    requires Eliminated(obj, overwrite, seglength, threshold, false, std).value.Saved?
    requires var rows := BuildSegments(obj.color.value, seglength).value.rows;
      0 < k < |KeptRows(rows, |rows|, threshold, std)| && KeptGaps(rows, threshold, std)[k]
    ensures var data := Eliminated(obj, overwrite, seglength, threshold, false, std).value.data;
      Offset(k, seglength) < |data| && data[Offset(k, seglength)] == data[Offset(k, seglength) - 1]
  {
    var s := BuildSegments(obj.color.value, seglength).value;
    CollageClosesGaps(KeptSegments(s.rows, seglength, threshold, std), seglength, KeptGaps(s.rows, threshold, std), k);
  }

  /** The segments dropped from one signal are exactly those of its deviations above the threshold. */
  lemma {:induction false} RemovedAreAbove(rows: seq<seq<real>>, n: nat, threshold: real, std: StdDev)
    requires n <= |rows|
    ensures |RemovedRows(rows, n, threshold, std)| == CountAbove(seq(n, k requires 0 <= k < n => std(rows[k])), threshold)
    decreases n
  {
    var stds := seq(n, k requires 0 <= k < n => std(rows[k]));
    if n > 0 {
      var front := seq(n - 1, k requires 0 <= k < n - 1 => std(rows[k]));
      assert stds == front + [std(rows[n - 1])];
      RemovedAreAbove(rows, n - 1, threshold, std);
      CountAboveAppend(front, std(rows[n - 1]), threshold);
    }
  }

  /** The deviations the first loop pools for an object are the ones the second loop prunes it by. */
  lemma {:induction false} DroppedSegments(color: seq<real>, seglength: int, threshold: real, std: StdDev)
    requires seglength > 0
    ensures var rows := BuildSegments(color, seglength).value.rows;
      |RemovedRows(rows, |rows|, threshold, std)| == CountAbove(SegmentStds(color, seglength, std).value, threshold) &&
      |KeptRows(rows, |rows|, threshold, std)| + CountAbove(SegmentStds(color, seglength, std).value, threshold) == |rows|
  {
    var rows := BuildSegments(color, seglength).value.rows;
    RemovedAreAbove(rows, |rows|, threshold, std);
    KeptRowsFacts(rows, |rows|, threshold, std);
    assert SegmentStds(color, seglength, std).value == seq(|rows|, k requires 0 <= k < |rows| => std(rows[k]));
  }

  /** The rows of a freshly filled array are the sequence it was filled from. */
  method ToArray(rows: seq<seq<real>>, cols: nat) returns (a: array2<real>)
    requires Rect(rows, cols)
    ensures fresh(a) && a.Length0 == |rows| && a.Length1 == cols && RowsOf(a) == rows
  {
    a := new real[|rows|, cols]((i, j) requires 0 <= i < |rows| && 0 <= j < cols => rows[i][j]);
    forall i | 0 <= i < |rows| ensures RowsOf(a)[i] == rows[i] { }
  }

  /** One object of the second loop, with pruned_segments as a 2-D array as in the source. */
  method EliminateObject(obj: ColorFile, overwrite: bool, seglength: int, threshold: real, cvpr14: bool, std: StdDev)
    returns (r: Result<Outcome<seq<real>>>)
    ensures r == Eliminated(obj, overwrite, seglength, threshold, cvpr14, std)
  {
    if obj.outputExists && !overwrite {
      return Ok(Skipped("already exists"));
    }
    if obj.color.None? {
      return Ok(Skipped("no color signals file available"));
    }
    var color := obj.color.value;
    if obj.hasNan {
      return Ok(Skipped("NaN in file"));
    }
    var built := BuildSegments(color, seglength);
    if built.Err? {
      return Err(built.reason);
    }
    var rows := built.value.rows;
    var kept, gaps, cuts := PruneSegments(rows, seglength, threshold, std);
    assert kept == KeptSegments(rows, seglength, threshold, std);
    if |kept| == 0 {
      return Ok(Skipped("All segments have been discared"));
    }
    var segments := ToArray(kept, seglength);
    var finalSignal;
    if cvpr14 {
      finalSignal := BuildFinalSignalCvpr14(segments, gaps);
    } else {
      finalSignal := BuildFinalSignal(segments, gaps);
    }
    return Ok(Saved(finalSignal));
  }

  /** The second loop, over every object until one raises. */
  method EliminateAll(objects: seq<ColorFile>, overwrite: bool, seglength: int, threshold: real, cvpr14: bool, std: StdDev)
    returns (outcomes: seq<Outcome<seq<real>>>, failure: Option<string>)
    ensures (outcomes, failure) == Run(objects, (obj: ColorFile) => Eliminated(obj, overwrite, seglength, threshold, cvpr14, std))
  {
    var process := (obj: ColorFile) => Eliminated(obj, overwrite, seglength, threshold, cvpr14, std);
    outcomes, failure := [], None;
    var k := 0;
    while k < |objects|
      invariant k <= |objects| && |outcomes| == k
      invariant forall i :: 0 <= i < k ==> process(objects[i]) == Ok(outcomes[i])
    {
      var r := EliminateObject(objects[k], overwrite, seglength, threshold, cvpr14, std);
      match r
      case Err(e) =>
        failure := Some(e);
        RunStopsAt(objects, process, outcomes);
        return;
      case Ok(o) =>
        outcomes := outcomes + [o];
      k := k + 1;
    }
    RunStopsAt(objects, process, outcomes);
  }

  // ---------------------------------------------------------------------
  // The script

  /** What one run of the script produces. */
  datatype Report =
    | ThresholdWritten(threshold: Result<real>)
    | SignalsSaved(outcomes: seq<Outcome<seq<real>>>, failure: Option<string>)

  /**
   * The script: with --load-threshold=None it computes and writes the
   * threshold and prunes nothing; with any other value (the default is the
   * empty string) it reads the threshold from that file (thresholdLine: the
   * float on its first line, or the exception opening or parsing it raises)
   * and prunes every object.
   */
  method MotionEliminationScript(objects: seq<ColorFile>, loadThreshold: string, thresholdLine: Result<real>,
                                 seglength: int, cutoff: real, cvpr14: bool, overwrite: bool, std: StdDev)
    returns (report: Report)
    ensures loadThreshold == "None" ==> report == ThresholdWritten(ComputedThreshold(objects, seglength, cutoff, std))
    ensures loadThreshold != "None" && thresholdLine.Err? ==> report == SignalsSaved([], Some(thresholdLine.reason))
    ensures loadThreshold != "None" && thresholdLine.Ok? ==>
      var run := Run(objects, (obj: ColorFile) => Eliminated(obj, overwrite, seglength, thresholdLine.value, cvpr14, std));
      report == SignalsSaved(run.0, run.1)
  {
    if loadThreshold == "None" {
      var allStds, failure := CollectStds(objects, seglength, std);
      if failure.Some? {
        return ThresholdWritten(Err(failure.value));
      }
      return ThresholdWritten(Threshold(allStds, cutoff));
    }
    if thresholdLine.Err? {
      return SignalsSaved([], Some(thresholdLine.reason));
    }
    var outcomes, failure := EliminateAll(objects, overwrite, seglength, thresholdLine.value, cvpr14, std);
    return SignalsSaved(outcomes, failure);
  }
}
