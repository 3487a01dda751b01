/*
 * bob/rppg/base/script/frequency_analysis.py: the heart rate of one pulse
 * signal is 60 times the frequency of the highest peak of its Welch power
 * spectrum between 0.7 Hz and 4 Hz.  scipy.signal.welch is a parameter.
 */
module FrequencyAnalysis {
  import opened Numerics
  import opened Scripts

  /** Frequencies and power spectral density as scipy.signal.welch returns them. */
  datatype Spectrum = Spectrum(freqs: seq<real>, psd: seq<real>)

  /**
   * scipy.signal.welch(signal, framerate, nperseg, nfft) for a non-empty
   * signal and nperseg >= 1: one density value per frequency.  An empty
   * signal gives empty arrays and a segment length below 1 raises, before
   * any spectrum is computed; AnalyseObject models both.
   */
  type Welch = w: (seq<real>, real, int, int) -> Spectrum | forall s, fs, n, m :: |w(s, fs, n, m).freqs| == |w(s, fs, n, m).psd|
    witness (s: seq<real>, fs: real, n: int, m: int) => Spectrum([], [])

  /** (2 N) // (nsegments + 1): eight half-overlapping segments for the default of 12. */
  function SegmentLength(n: nat, nsegments: int): (r: Result<int>)
    ensures r.Err? <==> nsegments == -1
    ensures nsegments > -1 ==> r.Ok? && (nsegments + 1) * r.value <= 2 * n < (nsegments + 1) * (r.value + 1)
  {
    if nsegments + 1 == 0 then Err("integer division or modulo by zero")
    else Ok(FloorDiv(2 * n, nsegments + 1))
  }

  /** numpy.where(f > lo)[0][0]: the first frequency above lo, if any. */
  function FirstAbove(f: seq<real>, lo: real): (r: Option<nat>)
    ensures r.Some? <==> exists i :: 0 <= i < |f| && f[i] > lo
    ensures r.Some? ==> r.value < |f| && f[r.value] > lo && forall j :: 0 <= j < r.value ==> f[j] <= lo
    decreases |f|
  {
    if |f| == 0 then None
    else if f[0] > lo then Some(0)
    else match FirstAbove(f[1..], lo)
      case None =>
        assert forall i :: 1 <= i < |f| ==> f[i] == f[1..][i - 1];
        None
      case Some(k) =>
        assert forall j :: 0 < j <= k ==> f[j] == f[1..][j - 1];
        Some(k + 1)
  }

  /** numpy.where(f < hi)[0][-1]: the last frequency below hi, if any. */
  function LastBelow(f: seq<real>, hi: real): (r: Option<nat>)
    ensures r.Some? <==> exists i :: 0 <= i < |f| && f[i] < hi
    ensures r.Some? ==> r.value < |f| && f[r.value] < hi && forall j :: r.value < j < |f| ==> f[j] >= hi
    decreases |f|
  {
    if |f| == 0 then None
    else if f[|f| - 1] < hi then Some(|f| - 1)
    else
      var front := f[..|f| - 1];
      assert forall i :: 0 <= i < |front| ==> front[i] == f[i];
      LastBelow(front, hi)
  }

  /** numpy.argmax(psd[lo:hi + 1]) + lo: the first position of the largest value in the range. */
  function ArgmaxIn(psd: seq<real>, lo: nat, hi: nat): (r: nat)
    requires lo <= hi < |psd|
    ensures lo <= r <= hi
    ensures forall k :: lo <= k <= hi ==> psd[k] <= psd[r]
    ensures forall k :: lo <= k < r ==> psd[k] < psd[r]
    decreases hi - lo
  {
    if lo == hi then lo
    else
      var best := ArgmaxIn(psd, lo + 1, hi);
      if psd[lo] >= psd[best] then lo else best
  }

  /**
   * The heart rate of one spectrum, or the exception numpy raises: no
   * frequency above 0.7 Hz or none below 4 Hz (IndexError), or an empty
   * range (ValueError from argmax).
   */
  function HeartRate(s: Spectrum): (r: Result<real>)
    requires |s.freqs| == |s.psd|
    ensures r.Ok? <==> FirstAbove(s.freqs, 0.7).Some? && LastBelow(s.freqs, 4.0).Some? &&
                       FirstAbove(s.freqs, 0.7).value <= LastBelow(s.freqs, 4.0).value
    ensures r.Ok? ==> var first, last := FirstAbove(s.freqs, 0.7).value, LastBelow(s.freqs, 4.0).value;
      exists k :: first <= k <= last && r.value == 60.0 * s.freqs[k] &&
        (forall j :: first <= j <= last ==> s.psd[j] <= s.psd[k]) &&
        (forall j :: first <= j < k ==> s.psd[j] < s.psd[k])
  {
    match (FirstAbove(s.freqs, 0.7), LastBelow(s.freqs, 4.0))
    case (None, _) => Err("index 0 is out of bounds for axis 0 with size 0")
    case (_, None) => Err("index -1 is out of bounds for axis 0 with size 0")
    case (Some(first), Some(last)) =>
      if first > last then Err("attempt to get argmax of an empty sequence")
      else
        var k := ArgmaxIn(s.psd, first, last);
        Ok(60.0 * s.freqs[k])
  }

  ghost predicate Increasing(f: seq<real>)
  {
    forall i, j :: 0 <= i < j < |f| ==> f[i] < f[j]
  }

  /** With increasing frequencies the chosen peak lies strictly inside the band, so 42 < hr < 240 beats per minute. */
  lemma {:induction false} HeartRateInBand(s: Spectrum)
    requires |s.freqs| == |s.psd| && Increasing(s.freqs)
    requires HeartRate(s).Ok?
    ensures 42.0 < HeartRate(s).value < 240.0
  {
    var first, last := FirstAbove(s.freqs, 0.7).value, LastBelow(s.freqs, 4.0).value;
    var k := ArgmaxIn(s.psd, first, last);
    assert HeartRate(s) == Ok(60.0 * s.freqs[k]);
    assert 0.7 < s.freqs[first] <= s.freqs[k] <= s.freqs[last] < 4.0;
  }

  /** With increasing frequencies there is a heart rate exactly when some frequency lies strictly between 0.7 and 4 Hz. */
  lemma {:induction false} HeartRateExists(s: Spectrum)
    requires |s.freqs| == |s.psd| && Increasing(s.freqs)
    ensures HeartRate(s).Ok? <==> exists i :: 0 <= i < |s.freqs| && 0.7 < s.freqs[i] < 4.0
  {
    var f := s.freqs;
    if i :| 0 <= i < |f| && 0.7 < f[i] < 4.0 {
      var first, last := FirstAbove(f, 0.7).value, LastBelow(f, 4.0).value;
      assert first <= i <= last;
    }
    if HeartRate(s).Ok? {
      var first := FirstAbove(f, 0.7).value;
      var last := LastBelow(f, 4.0).value;
      assert f[first] <= f[last];
      assert 0.7 < f[first] < 4.0;
    }
  }

  /** The empty spectrum of an empty signal has no frequency above 0.7 Hz. */
  lemma HeartRateOfNothing()
    ensures HeartRate(Spectrum([], [])) == Err("index 0 is out of bounds for axis 0 with size 0")
  {
  }

  /** One object of the database as the script sees it: does the output exist, and the pulse signal if its file loads. */
  datatype PulseFile = PulseFile(outputExists: bool, signal: Option<seq<real>>)

  /** The body of the loop over objects; the output saved is the one-element array [hr]. */
  function AnalyseObject(obj: PulseFile, overwrite: bool, framerate: real, nsegments: int, nfft: int, welch: Welch): (r: Result<Outcome<seq<real>>>)
    ensures obj.outputExists && !overwrite ==> r == Ok(Skipped("already exists"))
    ensures !(obj.outputExists && !overwrite) && obj.signal.None? ==> r == Ok(Skipped("no color signals file available"))
    ensures r.Ok? && r.value.Saved? ==>
      (obj.signal.Some? && |r.value.data| == 1 &&
       var n := |obj.signal.value|;
       n >= 1 && SegmentLength(n, nsegments).Ok? && 1 <= SegmentLength(n, nsegments).value <= nfft &&
       HeartRate(welch(obj.signal.value, framerate, SegmentLength(n, nsegments).value, nfft)) == Ok(r.value.data[0]))
    ensures (!(obj.outputExists && !overwrite) && obj.signal.Some? && SegmentLength(|obj.signal.value|, nsegments).Ok? &&
             nfft < SegmentLength(|obj.signal.value|, nsegments).value) ==> r == Ok(Skipped("nfft < nperseg"))
    ensures (!(obj.outputExists && !overwrite) && obj.signal.Some? && SegmentLength(|obj.signal.value|, nsegments).Ok? &&
             nfft >= SegmentLength(|obj.signal.value|, nsegments).value) ==>
      (|obj.signal.value| == 0 ==> r == Err("index 0 is out of bounds for axis 0 with size 0")) &&
      (|obj.signal.value| > 0 && SegmentLength(|obj.signal.value|, nsegments).value < 1 ==>
         r == Err("nperseg must be a positive integer"))
  {
    if obj.outputExists && !overwrite then Ok(Skipped("already exists"))
    else match obj.signal
      case None => Ok(Skipped("no color signals file available"))
      case Some(signal) =>
        match SegmentLength(|signal|, nsegments)
        case Err(e) => Err(e)
        case Ok(segmentLength) =>
          if nfft < segmentLength then Ok(Skipped("nfft < nperseg"))
          else if |signal| == 0 then
            // welch returns empty arrays, so where(f > 0.7)[0][0] raises (HeartRateOfNothing)
            Err("index 0 is out of bounds for axis 0 with size 0")
          else if segmentLength < 1 then Err("nperseg must be a positive integer")
          else
            match HeartRate(welch(signal, framerate, segmentLength, nfft))
            case Err(e) => Err(e)
            case Ok(hr) => Ok(Saved([hr]))
  }

  /** The script: every object in turn, until one raises. */
  method FrequencyAnalysisScript(objects: seq<PulseFile>, overwrite: bool, framerate: real, nsegments: int, nfft: int, welch: Welch)
    returns (outcomes: seq<Outcome<seq<real>>>, failure: Option<string>)
    ensures (outcomes, failure) == Run(objects, (obj: PulseFile) => AnalyseObject(obj, overwrite, framerate, nsegments, nfft, welch))
  {
    outcomes, failure := RunObjects(objects, (obj: PulseFile) => AnalyseObject(obj, overwrite, framerate, nsegments, nfft, welch));
  }
}
