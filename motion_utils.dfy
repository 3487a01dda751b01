/*
 * bob/rppg/cvpr14/motion_utils.py: non-rigid motion elimination of Li et al.
 * (CVPR 2014).  The illumination-rectified signal is cut into segments of a
 * fixed length, segments whose standard deviation exceeds a threshold are
 * dropped, and the remaining segments are glued back together, shifting
 * everything after a dropped segment so that the signal stays continuous.
 *
 * build_final_signal shifts the caller's segment array in place; the model
 * keeps that array as an array2 and states how it is changed.  numpy.std
 * with ddof=1 is a parameter.
 */
module MotionUtils {
  import opened Numerics

  /** Every row has `cols` entries. */
  ghost predicate Rect(rows: seq<seq<real>>, cols: nat)
  {
    forall i :: 0 <= i < |rows| ==> |rows[i]| == cols
  }

  /** The rows laid end to end (numpy's ravel of a 2-D array). */
  function Flatten(rows: seq<seq<real>>): seq<real>
    decreases |rows|
  {
    if |rows| == 0 then [] else Flatten(rows[..|rows| - 1]) + rows[|rows| - 1]
  }

  /**
   * r * cols, the position where row r of an array with cols columns starts
   * (written by recursion so that the index arithmetic stays linear).
   */
  function Offset(r: nat, cols: nat): nat
  {
    if r == 0 then 0 else Offset(r - 1, cols) + cols
  }

  lemma {:induction false} OffsetIsProduct(r: nat, cols: nat)
    ensures Offset(r, cols) == r * cols
  {
    if r > 0 {
      OffsetIsProduct(r - 1, cols);
      assert (r - 1) * cols + cols == r * cols;
    }
  }

  /** A row before row i ends before row i starts. */
  lemma {:induction false} OffsetBefore(r: nat, i: nat, cols: nat)
    requires r < i
    ensures Offset(r, cols) + cols <= Offset(i, cols)
  {
    if r + 1 < i {
      OffsetBefore(r, i - 1, cols);
    }
  }

  lemma {:induction false} FlattenLength(rows: seq<seq<real>>, cols: nat)
    requires Rect(rows, cols)
    ensures |Flatten(rows)| == Offset(|rows|, cols)
    decreases |rows|
  {
    if |rows| > 0 {
      FlattenLength(rows[..|rows| - 1], cols);
    }
  }

  lemma {:induction false} FlattenAt(rows: seq<seq<real>>, cols: nat, r: nat, j: nat)
    requires Rect(rows, cols) && r < |rows| && j < cols
    ensures |Flatten(rows)| == Offset(|rows|, cols)
    ensures Offset(r, cols) + j < |Flatten(rows)| && Flatten(rows)[Offset(r, cols) + j] == rows[r][j]
    decreases |rows|
  {
    var n := |rows| - 1;
    FlattenLength(rows, cols);
    FlattenLength(rows[..n], cols);
    if r < n {
      FlattenAt(rows[..n], cols, r, j);
      OffsetBefore(r, n, cols);
    }
  }

  /** A sequence that agrees with the rows entry by entry is their flattening. */
  lemma {:induction false} FlattenUnique(s: seq<real>, rows: seq<seq<real>>, cols: nat)
    requires Rect(rows, cols) && |s| == Offset(|rows|, cols)
    requires forall r, j :: 0 <= r < |rows| && 0 <= j < cols && Offset(r, cols) + j < |s| ==> s[Offset(r, cols) + j] == rows[r][j]
    ensures s == Flatten(rows)
    decreases |rows|
  {
    if |rows| > 0 {
      var n := |rows| - 1;
      var start := Offset(n, cols);
      var front := s[..start];
      forall r, j | 0 <= r < n && 0 <= j < cols && Offset(r, cols) + j < |front|
        ensures front[Offset(r, cols) + j] == rows[..n][r][j]
      {
        OffsetBefore(r, n, cols);
      }
      FlattenUnique(front, rows[..n], cols);
      assert s[start..] == rows[n] by {
        forall j | 0 <= j < cols ensures s[start..][j] == rows[n][j] {
          assert s[start + j] == rows[n][j];
        }
      }
      assert s == front + s[start..];
    }
  }

  // ---------------------------------------------------------------------
  // build_segments (motion_utils.py:23-52)

  datatype Segments = Segments(rows: seq<seq<real>>, endIndex: nat)

  /** The number of whole segments of length b in a samples: the rest is shorter than one segment. */
  function WholeSegments(a: nat, b: nat): (q: nat)
    requires b > 0
    ensures q == a / b && Offset(q, b) == q * b
    ensures Offset(q, b) <= a < Offset(q, b) + b
  {
    OffsetIsProduct(a / b, b);
    a / b
  }

  /**
   * build_segments: number_of_segments = floor(len / length) rows of `length`
   * samples, and end_index = number_of_segments * length.
   */
  function BuildSegments(signal: seq<real>, length: int): (r: Result<Segments>)
    ensures r.Ok? <==> length > 0
    ensures r.Ok? ==> |r.value.rows| == |signal| / length && r.value.endIndex == |r.value.rows| * length
    ensures r.Ok? ==> r.value.endIndex <= |signal| < r.value.endIndex + length
    ensures r.Ok? ==> Rect(r.value.rows, length)
  {
    if length == 0 then Err("float division by zero")
    else if length < 0 then Err("negative dimensions are not allowed")
    else
      var n := WholeSegments(|signal|, length);
      Ok(Segments(SegmentRows(signal, length, n), Offset(n, length)))
  }

  /** The first n consecutive runs of `length` samples. */
  function SegmentRows(signal: seq<real>, length: nat, n: nat): (rows: seq<seq<real>>)
    requires Offset(n, length) <= |signal|
    ensures |rows| == n && Rect(rows, length)
    ensures forall i, j :: 0 <= i < n && 0 <= j < length && Offset(i, length) + j < |signal| ==>
      rows[i][j] == signal[Offset(i, length) + j]
  {
    assert forall i :: 0 <= i < n ==> Offset(i, length) + length <= |signal| by {
      forall i | 0 <= i < n ensures Offset(i, length) + length <= |signal| {
        OffsetBefore(i, n, length);
      }
    }
    seq(n, i requires 0 <= i < n => signal[Offset(i, length)..Offset(i, length) + length])
  }

  /** The segments are, in order, exactly the signal up to end_index. */
  lemma BuildSegmentsCoversPrefix(signal: seq<real>, length: int)
    requires length > 0
    ensures var s := BuildSegments(signal, length).value; Flatten(s.rows) == signal[..s.endIndex]
  {
    var s := BuildSegments(signal, length).value;
    OffsetIsProduct(|s.rows|, length);
    forall r, j | 0 <= r < |s.rows| && 0 <= j < length
      ensures Offset(r, length) + j < s.endIndex && signal[..s.endIndex][Offset(r, length) + j] == s.rows[r][j]
    {
      OffsetBefore(r, |s.rows|, length);
    }
    FlattenUnique(signal[..s.endIndex], s.rows, length);
  }

  /** 100 samples: length 10 gives 10 x 10 and end index 100, length 11 gives 9 x 11 and 99. */
  lemma BuildSegmentsExamples(signal: seq<real>)
    requires |signal| == 100
    ensures |BuildSegments(signal, 10).value.rows| == 10 && BuildSegments(signal, 10).value.endIndex == 100
    ensures |BuildSegments(signal, 11).value.rows| == 9 && BuildSegments(signal, 11).value.endIndex == 99
  {
  }

  // ---------------------------------------------------------------------
  // prune_segments (motion_utils.py:54-101)

  /** A segment is kept when numpy.std(row, ddof=1) does not exceed the threshold. */
  predicate Stable(row: seq<real>, threshold: real, std: StdDev)
  {
    std(row) <= threshold
  }

  /** Indices of the stable rows among the first n, in increasing order. */
  function KeptRows(rows: seq<seq<real>>, n: nat, threshold: real, std: StdDev): seq<nat>
    requires n <= |rows|
  {
    if n == 0 then []
    else KeptRows(rows, n - 1, threshold, std) + (if Stable(rows[n - 1], threshold, std) then [n - 1] else [])
  }

  /** Indices of the unstable rows among the first n, in increasing order. */
  function RemovedRows(rows: seq<seq<real>>, n: nat, threshold: real, std: StdDev): seq<nat>
    requires n <= |rows|
  {
    if n == 0 then []
    else RemovedRows(rows, n - 1, threshold, std) + (if Stable(rows[n - 1], threshold, std) then [] else [n - 1])
  }

  /** The gap flag of the k-th kept row: it is not the first kept row and the row just before it was dropped. */
  function GapFlag(rows: seq<seq<real>>, kept: seq<nat>, threshold: real, std: StdDev, k: nat): bool
    requires k < |kept| && kept[k] < |rows|
  {
    k > 0 && kept[k] > 0 && !Stable(rows[kept[k] - 1], threshold, std)
  }

  function GapFlags(rows: seq<seq<real>>, kept: seq<nat>, threshold: real, std: StdDev): (g: seq<bool>)
    requires forall k :: 0 <= k < |kept| ==> kept[k] < |rows|
    ensures |g| == |kept|
  {
    seq(|kept|, k requires 0 <= k < |kept| => GapFlag(rows, kept, threshold, std, k))
  }

  /** The (start, end) sample interval of each dropped row: (i * cols, (i + 1) * cols). */
  function CutIntervals(removed: seq<nat>, cols: nat): (c: seq<(int, int)>)
    ensures |c| == |removed|
  {
    seq(|removed|, k requires 0 <= k < |removed| => (Offset(removed[k], cols), Offset(removed[k] + 1, cols)))
  }

  /** Appending kept row i, with every earlier kept row below i, adds its gap flag: the row before it was dropped. */
  lemma GapFlagsAppend(rows: seq<seq<real>>, kept: seq<nat>, i: nat, threshold: real, std: StdDev)
    requires i < |rows| && forall k :: 0 <= k < |kept| ==> kept[k] < i
    ensures GapFlags(rows, kept + [i], threshold, std)
      == GapFlags(rows, kept, threshold, std) + [|kept| > 0 && i > 0 && !Stable(rows[i - 1], threshold, std)]
  {
    var l, r := GapFlags(rows, kept + [i], threshold, std), GapFlags(rows, kept, threshold, std);
    forall k | 0 <= k < |kept| ensures l[k] == r[k] {
      assert (kept + [i])[k] == kept[k];
    }
    if |kept| > 0 {
      assert kept[0] < i;
    }
  }

  lemma CutIntervalsAppend(removed: seq<nat>, i: nat, cols: nat)
    ensures CutIntervals(removed + [i], cols) == CutIntervals(removed, cols) + [(Offset(i, cols), Offset(i + 1, cols))]
  {
    var l, r := CutIntervals(removed + [i], cols), CutIntervals(removed, cols);
    forall k | 0 <= k < |removed| ensures l[k] == r[k] {
      assert (removed + [i])[k] == removed[k];
    }
  }

  lemma {:induction false} KeptRowsFacts(rows: seq<seq<real>>, n: nat, threshold: real, std: StdDev)
    requires n <= |rows|
    ensures var idx := KeptRows(rows, n, threshold, std);
      (forall k :: 0 <= k < |idx| ==> idx[k] < n && Stable(rows[idx[k]], threshold, std)) &&
      (forall k, l :: 0 <= k < l < |idx| ==> idx[k] < idx[l]) &&
      (forall i :: 0 <= i < n && Stable(rows[i], threshold, std) ==> i in idx) &&
      |idx| + |RemovedRows(rows, n, threshold, std)| == n &&
      |idx| <= n
    decreases n
  {
    if n > 0 {
      KeptRowsFacts(rows, n - 1, threshold, std);
    }
  }

  lemma {:induction false} RemovedRowsFacts(rows: seq<seq<real>>, n: nat, threshold: real, std: StdDev)
    requires n <= |rows|
    ensures var idx := RemovedRows(rows, n, threshold, std);
      (forall k :: 0 <= k < |idx| ==> idx[k] < n && !Stable(rows[idx[k]], threshold, std)) &&
      (forall i :: 0 <= i < n && !Stable(rows[i], threshold, std) ==> i in idx)
    decreases n
  {
    if n > 0 {
      RemovedRowsFacts(rows, n - 1, threshold, std);
    }
  }

  /**
   * prune_segments: the stable rows in order, one gap flag per kept row
   * (true when the row just before it was dropped), and the sample interval
   * of every dropped row.
   */
  method PruneSegments(rows: seq<seq<real>>, cols: nat, threshold: real, std: StdDev)
    returns (kept: seq<seq<real>>, gaps: seq<bool>, cuts: seq<(int, int)>)
    requires Rect(rows, cols)
    ensures var idx := KeptRows(rows, |rows|, threshold, std);
      |kept| == |idx| && forall k :: 0 <= k < |idx| ==> idx[k] < |rows| && kept[k] == rows[idx[k]]
    ensures forall k :: 0 <= k < |KeptRows(rows, |rows|, threshold, std)| ==> KeptRows(rows, |rows|, threshold, std)[k] < |rows|
    ensures gaps == GapFlags(rows, KeptRows(rows, |rows|, threshold, std), threshold, std)
    ensures cuts == CutIntervals(RemovedRows(rows, |rows|, threshold, std), cols)
  {
    kept, gaps, cuts := [], [], [];
    ghost var idx: seq<nat>, removed: seq<nat> := [], [];
    for i := 0 to |rows|
      invariant idx == KeptRows(rows, i, threshold, std) && removed == RemovedRows(rows, i, threshold, std)
      invariant forall k :: 0 <= k < |idx| ==> idx[k] < i
      invariant |kept| == |idx|
      invariant forall k :: 0 <= k < |kept| ==> kept[k] == rows[idx[k]]
      invariant gaps == GapFlags(rows, idx, threshold, std)
      invariant cuts == CutIntervals(removed, cols)
    {
      if std(rows[i]) <= threshold {
        GapFlagsAppend(rows, idx, i, threshold, std);
        idx := idx + [i];
        kept := kept + [rows[i]];
        if |kept| == 1 {
          gaps := gaps + [false];
        } else if std(rows[i - 1]) > threshold {
          gaps := gaps + [true];
        } else {
          gaps := gaps + [false];
        }
      } else {
        CutIntervalsAppend(removed, i, cols);
        removed := removed + [i];
        cuts := cuts + [(Offset(i, cols), Offset(i + 1, cols))];
      }
    }
  }

  /** A kept row carries a gap flag exactly when it is not the first kept row and the row before it was dropped. */
  lemma GapMeansPreviousDropped(rows: seq<seq<real>>, threshold: real, std: StdDev, k: nat)
    requires k < |KeptRows(rows, |rows|, threshold, std)|
    ensures var idx := KeptRows(rows, |rows|, threshold, std);
      var removed := RemovedRows(rows, |rows|, threshold, std);
      idx[k] < |rows| &&
      (GapFlag(rows, idx, threshold, std, k) <==> k > 0 && exists m :: 0 <= m < |removed| && removed[m] + 1 == idx[k])
  {
    var idx := KeptRows(rows, |rows|, threshold, std);
    var removed := RemovedRows(rows, |rows|, threshold, std);
    KeptRowsFacts(rows, |rows|, threshold, std);
    RemovedRowsFacts(rows, |rows|, threshold, std);
    if k > 0 {
      assert idx[0] < idx[k];
      if !Stable(rows[idx[k] - 1], threshold, std) {
        assert idx[k] - 1 in removed;
      }
    }
  }

  /** The cut intervals are (i * cols, (i + 1) * cols). */
  lemma CutIntervalsAreProducts(removed: seq<nat>, cols: nat, k: nat)
    requires k < |removed|
    ensures CutIntervals(removed, cols)[k] == (removed[k] * cols, (removed[k] + 1) * cols)
  {
    OffsetIsProduct(removed[k], cols);
    OffsetIsProduct(removed[k] + 1, cols);
  }

  /** The rows of prune_segments' test: ten rows, of which rows 0 and 4 are not stable. */
  ghost predicate TestRows(rows: seq<seq<real>>, threshold: real, std: StdDev)
  {
    |rows| == 10 && forall i :: 0 <= i < 10 ==> (Stable(rows[i], threshold, std) <==> i != 0 && i != 4)
  }

  lemma KeptRowsOfTest(rows: seq<seq<real>>, threshold: real, std: StdDev)
    requires TestRows(rows, threshold, std)
    ensures KeptRows(rows, 10, threshold, std) == [1, 2, 3, 5, 6, 7, 8, 9]
  {
    assert !Stable(rows[0], threshold, std) && !Stable(rows[4], threshold, std);
    assert KeptRows(rows, 1, threshold, std) == [];
    assert KeptRows(rows, 2, threshold, std) == [1];
    assert KeptRows(rows, 3, threshold, std) == [1, 2];
    assert KeptRows(rows, 4, threshold, std) == [1, 2, 3];
    assert KeptRows(rows, 5, threshold, std) == [1, 2, 3];
    assert KeptRows(rows, 6, threshold, std) == [1, 2, 3, 5];
    assert KeptRows(rows, 7, threshold, std) == [1, 2, 3, 5, 6];
    assert KeptRows(rows, 8, threshold, std) == [1, 2, 3, 5, 6, 7];
    assert KeptRows(rows, 9, threshold, std) == [1, 2, 3, 5, 6, 7, 8];
  }

  lemma RemovedRowsOfTest(rows: seq<seq<real>>, threshold: real, std: StdDev)
    requires TestRows(rows, threshold, std)
    ensures RemovedRows(rows, 10, threshold, std) == [0, 4]
  {
    assert !Stable(rows[0], threshold, std) && !Stable(rows[4], threshold, std);
    assert RemovedRows(rows, 1, threshold, std) == [0];
    assert RemovedRows(rows, 2, threshold, std) == [0];
    assert RemovedRows(rows, 3, threshold, std) == [0];
    assert RemovedRows(rows, 4, threshold, std) == [0];
    assert RemovedRows(rows, 5, threshold, std) == [0, 4];
    assert RemovedRows(rows, 6, threshold, std) == [0, 4];
    assert RemovedRows(rows, 7, threshold, std) == [0, 4];
    assert RemovedRows(rows, 8, threshold, std) == [0, 4];
    assert RemovedRows(rows, 9, threshold, std) == [0, 4];
  }

  lemma GapFlagsOfTest(rows: seq<seq<real>>, threshold: real, std: StdDev)
    requires TestRows(rows, threshold, std)
    ensures GapFlags(rows, [1, 2, 3, 5, 6, 7, 8, 9], threshold, std) == [false, false, false, true, false, false, false, false]
  {
    var g := GapFlags(rows, [1, 2, 3, 5, 6, 7, 8, 9], threshold, std);
    assert g[3];
    assert !g[0] && !g[1] && !g[2] && !g[4] && !g[5] && !g[6] && !g[7];
  }

  /** prune_segments' test: of ten rows, dropping rows 0 and 4 keeps eight, flags the fourth kept row, and cuts [0, 10) and [40, 50). */
  lemma PruneSegmentsExample(rows: seq<seq<real>>, threshold: real, std: StdDev)
    requires |rows| == 10
    requires forall i :: 0 <= i < 10 ==> (Stable(rows[i], threshold, std) <==> i != 0 && i != 4)
    ensures KeptRows(rows, 10, threshold, std) == [1, 2, 3, 5, 6, 7, 8, 9]
    ensures RemovedRows(rows, 10, threshold, std) == [0, 4]
    ensures GapFlags(rows, [1, 2, 3, 5, 6, 7, 8, 9], threshold, std) == [false, false, false, true, false, false, false, false]
    ensures CutIntervals([0, 4], 10) == [(0, 10), (40, 50)]
  {
    KeptRowsOfTest(rows, threshold, std);
    RemovedRowsOfTest(rows, threshold, std);
    GapFlagsOfTest(rows, threshold, std);
    assert Offset(4, 10) == 40 && Offset(5, 10) == 50;
  }

  // ---------------------------------------------------------------------
  // build_final_signal and build_final_signal_cvpr14 (motion_utils.py:103-178)

  /**
   * The vertical step at row i, measured on the original rows:
   * first sample of row i minus last sample of the row before it
   * (segments[i-1, -1]; for i = 0 Python reads the last row).
   */
  function StepAt(rows: seq<seq<real>>, cols: nat, i: nat): real
    requires Rect(rows, cols) && cols > 0 && i < |rows|
  {
    rows[i][0] - rows[if i == 0 then |rows| - 1 else i - 1][cols - 1]
  }

  /** build_final_signal: the total shift of row n - 1, the sum of the steps at the flagged rows up to it. */
  function Shift(rows: seq<seq<real>>, cols: nat, gaps: seq<bool>, n: nat): real
    requires Rect(rows, cols) && cols > 0 && n <= |rows| <= |gaps|
  {
    if n == 0 then 0.0
    else Shift(rows, cols, gaps, n - 1) + (if gaps[n - 1] then StepAt(rows, cols, n - 1) else 0.0)
  }

  /** build_final_signal_cvpr14: the shift of row n - 1 is the step of the last flagged row only. */
  function ShiftCvpr14(rows: seq<seq<real>>, cols: nat, gaps: seq<bool>, n: nat): real
    requires Rect(rows, cols) && cols > 0 && n <= |rows| <= |gaps|
  {
    if n == 0 then 0.0
    else if gaps[n - 1] then StepAt(rows, cols, n - 1)
    else ShiftCvpr14(rows, cols, gaps, n - 1)
  }

  function ShiftOf(corrected: bool, rows: seq<seq<real>>, cols: nat, gaps: seq<bool>, n: nat): real
    requires Rect(rows, cols) && cols > 0 && n <= |rows| <= |gaps|
  {
    if corrected then Shift(rows, cols, gaps, n) else ShiftCvpr14(rows, cols, gaps, n)
  }

  /** Row r lowered by its shift. */
  function ShiftedRow(rows: seq<seq<real>>, cols: nat, gaps: seq<bool>, corrected: bool, r: nat): (s: seq<real>)
    requires Rect(rows, cols) && cols > 0 && r < |rows| <= |gaps|
    ensures |s| == cols
  {
    var shift := ShiftOf(corrected, rows, cols, gaps, r + 1);
    seq(cols, j requires 0 <= j < cols => rows[r][j] - shift)
  }

  /** Every row lowered by its shift. */
  function ShiftedRows(rows: seq<seq<real>>, cols: nat, gaps: seq<bool>, corrected: bool): (s: seq<seq<real>>)
    requires Rect(rows, cols) && cols > 0 && |rows| <= |gaps|
    ensures |s| == |rows| && Rect(s, cols)
  {
    seq(|rows|, r requires 0 <= r < |rows| => ShiftedRow(rows, cols, gaps, corrected, r))
  }

  /** The glued signal. */
  function Collage(rows: seq<seq<real>>, cols: nat, gaps: seq<bool>, corrected: bool): seq<real>
    requires Rect(rows, cols) && cols > 0 && |rows| <= |gaps|
  {
    Flatten(ShiftedRows(rows, cols, gaps, corrected))
  }

  lemma CollageAt(rows: seq<seq<real>>, cols: nat, gaps: seq<bool>, corrected: bool, r: nat, j: nat)
    requires Rect(rows, cols) && cols > 0 && |rows| <= |gaps| && r < |rows| && j < cols
    ensures |Collage(rows, cols, gaps, corrected)| == Offset(|rows|, cols)
    ensures Offset(r, cols) + j < Offset(|rows|, cols)
    ensures Collage(rows, cols, gaps, corrected)[Offset(r, cols) + j] == rows[r][j] - ShiftOf(corrected, rows, cols, gaps, r + 1)
  {
    FlattenAt(ShiftedRows(rows, cols, gaps, corrected), cols, r, j);
  }

  /** A sequence that matches the shifted rows entry by entry is the collage. */
  lemma CollageUnique(s: seq<real>, rows: seq<seq<real>>, cols: nat, gaps: seq<bool>, corrected: bool)
    requires Rect(rows, cols) && cols > 0 && |rows| <= |gaps| && |s| == Offset(|rows|, cols)
    requires forall r, j :: 0 <= r < |rows| && 0 <= j < cols && Offset(r, cols) + j < |s| ==>
      s[Offset(r, cols) + j] == rows[r][j] - ShiftOf(corrected, rows, cols, gaps, r + 1)
    ensures s == Collage(rows, cols, gaps, corrected)
  {
    var shifted := ShiftedRows(rows, cols, gaps, corrected);
    forall r, j | 0 <= r < |shifted| && 0 <= j < cols && Offset(r, cols) + j < |s|
      ensures s[Offset(r, cols) + j] == shifted[r][j]
    {
      assert shifted[r][j] == rows[r][j] - ShiftOf(corrected, rows, cols, gaps, r + 1);
    }
    FlattenUnique(s, shifted, cols);
  }

  /** build_final_signal closes every flagged gap: the glued signal is continuous where rows were dropped. */
  lemma CollageClosesGaps(rows: seq<seq<real>>, cols: nat, gaps: seq<bool>, r: nat)
    requires Rect(rows, cols) && cols > 0 && |rows| <= |gaps| && 0 < r < |rows| && gaps[r]
    ensures var c := Collage(rows, cols, gaps, true);
      Offset(r, cols) < |c| && c[Offset(r, cols)] == c[Offset(r, cols) - 1]
  {
    CollageAt(rows, cols, gaps, true, r, 0);
    CollageAt(rows, cols, gaps, true, r - 1, cols - 1);
  }

  /** Both variants keep the original step between rows that were adjacent in the input (no flag). */
  lemma CollageKeepsUnflaggedSteps(rows: seq<seq<real>>, cols: nat, gaps: seq<bool>, corrected: bool, r: nat)
    requires Rect(rows, cols) && cols > 0 && |rows| <= |gaps| && 0 < r < |rows| && !gaps[r]
    ensures var c := Collage(rows, cols, gaps, corrected);
      Offset(r, cols) < |c| && c[Offset(r, cols)] - c[Offset(r, cols) - 1] == rows[r][0] - rows[r - 1][cols - 1]
  {
    CollageAt(rows, cols, gaps, corrected, r, 0);
    CollageAt(rows, cols, gaps, corrected, r - 1, cols - 1);
  }

  /** Within a segment both variants keep the shape of the signal: each row is moved by one constant. */
  lemma CollageKeepsRowShape(rows: seq<seq<real>>, cols: nat, gaps: seq<bool>, corrected: bool, r: nat, j: nat, j': nat)
    requires Rect(rows, cols) && cols > 0 && |rows| <= |gaps| && r < |rows| && j < cols && j' < cols
    ensures var c := Collage(rows, cols, gaps, corrected);
      Offset(r, cols) + j < |c| && Offset(r, cols) + j' < |c| &&
      c[Offset(r, cols) + j] - c[Offset(r, cols) + j'] == rows[r][j] - rows[r][j']
  {
    CollageAt(rows, cols, gaps, corrected, r, j);
    CollageAt(rows, cols, gaps, corrected, r, j');
  }

  /** The number of flagged rows among the first n. */
  function CountFlags(gaps: seq<bool>, n: nat): nat
    requires n <= |gaps|
  {
    if n == 0 then 0 else CountFlags(gaps, n - 1) + (if gaps[n - 1] then 1 else 0)
  }

  lemma {:induction false} NoFlagsNoShift(rows: seq<seq<real>>, cols: nat, gaps: seq<bool>, n: nat)
    requires Rect(rows, cols) && cols > 0 && n <= |rows| <= |gaps|
    requires CountFlags(gaps, n) == 0
    ensures Shift(rows, cols, gaps, n) == 0.0
  {
    if n > 0 {
      NoFlagsNoShift(rows, cols, gaps, n - 1);
    }
  }

  /** The two variants shift alike up to (and including) the first flagged row; they part at the second. */
  lemma {:induction false} ShiftsAgreeBeforeSecondGap(rows: seq<seq<real>>, cols: nat, gaps: seq<bool>, n: nat)
    requires Rect(rows, cols) && cols > 0 && n <= |rows| <= |gaps|
    requires CountFlags(gaps, n) <= 1
    ensures Shift(rows, cols, gaps, n) == ShiftCvpr14(rows, cols, gaps, n)
  {
    if n > 0 {
      if gaps[n - 1] {
        NoFlagsNoShift(rows, cols, gaps, n - 1);
      } else {
        ShiftsAgreeBeforeSecondGap(rows, cols, gaps, n - 1);
      }
    }
  }

  /** Rows with at most one flag up to them are glued identically by both variants. */
  lemma CollagesAgreeBeforeSecondGap(rows: seq<seq<real>>, cols: nat, gaps: seq<bool>, r: nat, j: nat)
    requires Rect(rows, cols) && cols > 0 && |rows| <= |gaps| && r < |rows| && j < cols
    requires CountFlags(gaps, r + 1) <= 1
    ensures Offset(r, cols) + j < |Collage(rows, cols, gaps, true)| == |Collage(rows, cols, gaps, false)|
    ensures Collage(rows, cols, gaps, true)[Offset(r, cols) + j] == Collage(rows, cols, gaps, false)[Offset(r, cols) + j]
  {
    CollageAt(rows, cols, gaps, true, r, j);
    CollageAt(rows, cols, gaps, false, r, j);
    ShiftsAgreeBeforeSecondGap(rows, cols, gaps, r + 1);
  }

  /** With two flagged rows the cvpr14 variant leaves a step at the second one: rows 0, 1, 3 give 0, 0, 1 instead of 0, 0, 0. */
  lemma Cvpr14LeavesSecondGapOpen()
    ensures Collage([[0.0], [1.0], [3.0]], 1, [false, true, true], true) == [0.0, 0.0, 0.0]
    ensures Collage([[0.0], [1.0], [3.0]], 1, [false, true, true], false) == [0.0, 0.0, 1.0]
  {
    var rows, gaps := [[0.0], [1.0], [3.0]], [false, true, true];
    assert Shift(rows, 1, gaps, 1) == 0.0;
    assert Shift(rows, 1, gaps, 2) == 1.0;
    assert Shift(rows, 1, gaps, 3) == 3.0;
    assert ShiftCvpr14(rows, 1, gaps, 3) == 2.0;
    assert Offset(1, 1) == 1 && Offset(2, 1) == 2 && Offset(3, 1) == 3;
    forall r | 0 <= r < 3 ensures [0.0, 0.0, 0.0][Offset(r, 1) + 0] == rows[r][0] - ShiftOf(true, rows, 1, gaps, r + 1) { }
    CollageUnique([0.0, 0.0, 0.0], rows, 1, gaps, true);
    forall r | 0 <= r < 3 ensures [0.0, 0.0, 1.0][Offset(r, 1) + 0] == rows[r][0] - ShiftOf(false, rows, 1, gaps, r + 1) { }
    CollageUnique([0.0, 0.0, 1.0], rows, 1, gaps, false);
  }

  lemma {:induction false} CollageExampleShift(rows: seq<seq<real>>, gaps: seq<bool>, n: nat)
    requires |rows| == 10 && Rect(rows, 10) && |gaps| == 10 && n <= 10
    requires forall r, j :: 0 <= r < 10 && 0 <= j < 10 ==> rows[r][j] == if r < 4 then 1.0 else 5.0
    requires forall r :: 0 <= r < 10 ==> gaps[r] == (r == 4)
    ensures Shift(rows, 10, gaps, n) == if n <= 4 then 0.0 else 4.0
  {
    if n > 0 {
      CollageExampleShift(rows, gaps, n - 1);
    }
  }

  /** build_final_signal's test: ten rows of ones, rows 4 to 9 raised by 4 and flagged at row 4, glue back to ones. */
  lemma CollageExample(rows: seq<seq<real>>, gaps: seq<bool>)
    requires |rows| == 10 && Rect(rows, 10) && |gaps| == 10
    requires forall r, j :: 0 <= r < 10 && 0 <= j < 10 ==> rows[r][j] == if r < 4 then 1.0 else 5.0
    requires forall r :: 0 <= r < 10 ==> gaps[r] == (r == 4)
    ensures Collage(rows, 10, gaps, true) == seq(100, _ => 1.0)
  {
    var ones := seq(100, _ => 1.0);
    OffsetIsProduct(10, 10);
    forall r, j | 0 <= r < 10 && 0 <= j < 10
      ensures Offset(r, 10) + j < 100 && ones[Offset(r, 10) + j] == rows[r][j] - ShiftOf(true, rows, 10, gaps, r + 1)
    {
      OffsetBefore(r, 10, 10);
      CollageExampleShift(rows, gaps, r + 1);
    }
    CollageUnique(ones, rows, 10, gaps, true);
  }

  /** The rows of a 2-D array. */
  ghost function RowsOf(a: array2<real>): (rows: seq<seq<real>>)
    reads a
    ensures |rows| == a.Length0 && Rect(rows, a.Length1)
  {
    seq(a.Length0, i requires 0 <= i < a.Length0 reads a =>
      seq(a.Length1, j requires 0 <= j < a.Length1 reads a => a[i, j]))
  }

  /** final_signal[i*L:(i+1)*L] = segments[i]. */
  method CopyRow(a: array2<real>, i: nat, out: array<real>)
    requires i < a.Length0 && out.Length == Offset(a.Length0, a.Length1)
    modifies out
    ensures Offset(i, a.Length1) + a.Length1 <= out.Length
    ensures forall j :: 0 <= j < a.Length1 ==> out[Offset(i, a.Length1) + j] == a[i, j]
    ensures forall k :: 0 <= k < out.Length && !(Offset(i, a.Length1) <= k < Offset(i, a.Length1) + a.Length1) ==>
      out[k] == old(out[k])
  {
    var cols := a.Length1;
    var start := Offset(i, cols);
    if i + 1 < a.Length0 {
      OffsetBefore(i + 1, a.Length0, cols);
    }
    for j := 0 to cols
      invariant forall j' :: 0 <= j' < j ==> out[start + j'] == a[i, j']
      invariant forall k :: 0 <= k < out.Length && !(start <= k < start + j) ==> out[k] == old(out[k])
    {
      out[start + j] := a[i, j];
    }
  }

  /** segments[i:, :] -= gap. */
  method ShiftRowsFrom(a: array2<real>, i: nat, gap: real)
    modifies a
    ensures forall r, j :: 0 <= r < a.Length0 && 0 <= j < a.Length1 ==>
      a[r, j] == old(a[r, j]) - (if r >= i then gap else 0.0)
  {
    var r := i;
    while r < a.Length0
      invariant forall r', j :: 0 <= r' < a.Length0 && 0 <= j < a.Length1 ==>
        a[r', j] == old(a[r', j]) - (if i <= r' < r then gap else 0.0)
    {
      for j := 0 to a.Length1
        invariant forall r', j' :: 0 <= r' < a.Length0 && 0 <= j' < a.Length1 ==>
          a[r', j'] == old(a[r', j']) - (if i <= r' < r || (r' == r && j' < j) then gap else 0.0)
      {
        a[r, j] := a[r, j] - gap;
      }
      r := r + 1;
    }
  }

  /** Rows before i carry their final shift, the others the shift of row i - 1. */
  ghost predicate ShiftedUpTo(a: array2<real>, orig: seq<seq<real>>, gaps: seq<bool>, corrected: bool, i: nat)
    reads a
  {
    Rect(orig, a.Length1) && |orig| == a.Length0 <= |gaps| && a.Length1 > 0 && i <= a.Length0 &&
    forall r, j :: 0 <= r < a.Length0 && 0 <= j < a.Length1 ==>
      a[r, j] == orig[r][j] - ShiftOf(corrected, orig, a.Length1, gaps, if r < i then r + 1 else i)
  }

  /** The first i rows of a have been copied into out. */
  ghost predicate CopiedRows(a: array2<real>, out: array<real>, i: nat)
    reads a, out
  {
    forall r, j :: 0 <= r < i && r < a.Length0 && 0 <= j < a.Length1 ==>
      Offset(r, a.Length1) + j < out.Length && out[Offset(r, a.Length1) + j] == a[r, j]
  }

  /**
   * The step the loop measures at a flagged row i is the increment of the
   * shift there: against the previous row as already shifted (corrected) or
   * as it was originally (cvpr14).
   */
  lemma GapIsShiftIncrement(a: array2<real>, orig: seq<seq<real>>, gaps: seq<bool>, corrected: bool, i: nat, before: real)
    requires ShiftedUpTo(a, orig, gaps, corrected, i) && i < a.Length0 && gaps[i]
    requires var prev := if i == 0 then a.Length0 - 1 else i - 1;
      before == if corrected then a[prev, a.Length1 - 1] else orig[prev][a.Length1 - 1]
    ensures a[i, 0] - before ==
      ShiftOf(corrected, orig, a.Length1, gaps, i + 1) - ShiftOf(corrected, orig, a.Length1, gaps, i)
  {
  }

  /** One iteration of the collage loop: copy row i, and when it is flagged shift it and what follows by `gap` and copy it again. */
  method GlueRow(segments: array2<real>, out: array<real>, i: nat, shift: bool, gap: real,
                 ghost orig: seq<seq<real>>, ghost gaps: seq<bool>, ghost corrected: bool)
    requires i < segments.Length0 && out.Length == Offset(segments.Length0, segments.Length1)
    requires ShiftedUpTo(segments, orig, gaps, corrected, i) && CopiedRows(segments, out, i)
    requires shift == gaps[i]
    requires shift ==> gap == ShiftOf(corrected, orig, segments.Length1, gaps, i + 1) - ShiftOf(corrected, orig, segments.Length1, gaps, i)
    modifies segments, out
    ensures ShiftedUpTo(segments, orig, gaps, corrected, i + 1) && CopiedRows(segments, out, i + 1)
  {
    var cols := segments.Length1;
    forall r | 0 <= r < i ensures Offset(r, cols) + cols <= Offset(i, cols) {
      OffsetBefore(r, i, cols);
    }
    CopyRow(segments, i, out);
    if shift {
      ShiftRowsFrom(segments, i, gap);
      CopyRow(segments, i, out);
    } else {
      assert ShiftOf(corrected, orig, cols, gaps, i + 1) == ShiftOf(corrected, orig, cols, gaps, i);
    }
  }

  /**
   * build_final_signal: copies the segments into one signal, lowering each
   * flagged segment and everything after it by the step to the previous
   * segment as currently shifted.  The caller's segments are left shifted.
   */
  method BuildFinalSignal(segments: array2<real>, gaps: seq<bool>) returns (finalSignal: seq<real>)
    requires segments.Length1 > 0 && segments.Length0 <= |gaps|
    modifies segments
    ensures finalSignal == Collage(old(RowsOf(segments)), segments.Length1, gaps, true)
    ensures RowsOf(segments) == ShiftedRows(old(RowsOf(segments)), segments.Length1, gaps, true)
  {
    var n, cols := segments.Length0, segments.Length1;
    ghost var orig := RowsOf(segments);
    var out := new real[Offset(n, cols)](_ => 0.0);
    for i := 0 to n
      invariant ShiftedUpTo(segments, orig, gaps, true, i) && CopiedRows(segments, out, i)
    {
      var gap := 0.0;
      if gaps[i] {
        var prev := if i == 0 then n - 1 else i - 1;
        gap := segments[i, 0] - segments[prev, cols - 1];
        GapIsShiftIncrement(segments, orig, gaps, true, i, segments[prev, cols - 1]);
      }
      GlueRow(segments, out, i, gaps[i], gap, orig, gaps, true);
    }
    finalSignal := out[..];
    GluedIsCollage(segments, out, orig, gaps, true);
  }

  /** The state the collage loop ends in is the collage. */
  lemma GluedIsCollage(segments: array2<real>, out: array<real>, orig: seq<seq<real>>, gaps: seq<bool>, corrected: bool)
    requires out.Length == Offset(segments.Length0, segments.Length1)
    requires ShiftedUpTo(segments, orig, gaps, corrected, segments.Length0) && CopiedRows(segments, out, segments.Length0)
    ensures out[..] == Collage(orig, segments.Length1, gaps, corrected)
    ensures RowsOf(segments) == ShiftedRows(orig, segments.Length1, gaps, corrected)
  {
    CollageUnique(out[..], orig, segments.Length1, gaps, corrected);
    var shifted := ShiftedRows(orig, segments.Length1, gaps, corrected);
    forall r | 0 <= r < segments.Length0 ensures RowsOf(segments)[r] == shifted[r] { }
  }

  /**
   * build_final_signal_cvpr14: the same collage, except that the step is
   * measured against the ORIGINAL previous segment (the bug of the authors'
   * code, kept on purpose by the package to reproduce their results).
   */
  method BuildFinalSignalCvpr14(segments: array2<real>, gaps: seq<bool>) returns (finalSignal: seq<real>)
    requires segments.Length1 > 0 && segments.Length0 <= |gaps|
    modifies segments
    ensures finalSignal == Collage(old(RowsOf(segments)), segments.Length1, gaps, false)
    ensures RowsOf(segments) == ShiftedRows(old(RowsOf(segments)), segments.Length1, gaps, false)
  {
    var n, cols := segments.Length0, segments.Length1;
    ghost var orig := RowsOf(segments);
    var out := new real[Offset(n, cols)](_ => 0.0);
    var original := new real[n, cols]((r, j) reads segments requires 0 <= r < n && 0 <= j < cols => segments[r, j]);
    for i := 0 to n
      invariant ShiftedUpTo(segments, orig, gaps, false, i) && CopiedRows(segments, out, i)
      invariant forall r, j :: 0 <= r < n && 0 <= j < cols ==> original[r, j] == orig[r][j]
    {
      GlueRowCvpr14(segments, original, out, i, orig, gaps);
    }
    finalSignal := out[..];
    GluedIsCollage(segments, out, orig, gaps, false);
  }

  /** One iteration of build_final_signal_cvpr14's loop: the step is measured against the copy of the original segments. */
  method GlueRowCvpr14(segments: array2<real>, original: array2<real>, out: array<real>, i: nat,
                       ghost orig: seq<seq<real>>, gaps: seq<bool>)
    requires i < segments.Length0 && out.Length == Offset(segments.Length0, segments.Length1)
    requires ShiftedUpTo(segments, orig, gaps, false, i) && CopiedRows(segments, out, i)
    requires original.Length0 == segments.Length0 && original.Length1 == segments.Length1
    requires forall r, j :: 0 <= r < original.Length0 && 0 <= j < original.Length1 ==> original[r, j] == orig[r][j]
    modifies segments, out
    ensures ShiftedUpTo(segments, orig, gaps, false, i + 1) && CopiedRows(segments, out, i + 1)
  {
    var n, cols := segments.Length0, segments.Length1;
    var gap := 0.0;
    if gaps[i] {
      var prev := if i == 0 then n - 1 else i - 1;
      gap := segments[i, 0] - original[prev, cols - 1];
      GapIsShiftIncrement(segments, orig, gaps, false, i, original[prev, cols - 1]);
    }
    GlueRow(segments, out, i, gaps[i], gap, orig, gaps, false);
  }
}
