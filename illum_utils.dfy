/*
 * bob/rppg/cvpr14/illum_utils.py: illumination rectification of Li et al.
 * (CVPR 2014).  A normalised least-mean-squares (NLMS) filter predicts the
 * face's mean green value from the background's; the prediction error is
 * the rectified signal.  The filter is run twice: once adapting its weights
 * from zero, then once more, frozen at the learned weights.
 *
 * The model follows nlms step by step: the window x is the last n_filter_taps
 * samples of the input, newest first; the error uses the weights before the
 * update; with adaptation the output is recomputed with the updated weights.
 */
module IllumUtils {
  import opened Numerics

  /** The regulariser added to x.x in the normalisation factor. */
  const Eps: real := 0.001

  datatype NlmsOutput = NlmsOutput(y: seq<real>, e: seq<real>, w: seq<real>)

  /** numpy.flipud on a one-dimensional array. */
  function Reverse(s: seq<real>): (r: seq<real>)
    ensures |r| == |s| && forall k :: 0 <= k < |s| ==> r[k] == s[|s| - 1 - k]
  {
    seq(|s|, k requires 0 <= k < |s| => s[|s| - 1 - k])
  }

  /** len(signal) - n_filter_taps + 1. */
  function Iterations(signal: seq<real>, taps: nat): int
  {
    |signal| - taps + 1
  }

  /** The explicit weights, or zeros(n_filter_taps) by default. */
  function InitialWeights(initCoeffs: Option<seq<real>>, taps: nat): (w: seq<real>)
    ensures initCoeffs.None? ==> |w| == taps && forall k :: 0 <= k < taps ==> w[k] == 0.0
    ensures initCoeffs.Some? ==> w == initCoeffs.value
  {
    if initCoeffs.None? then seq(taps, _ => 0.0) else initCoeffs.value
  }

  /** The data window of iteration n: signal[n:n+taps], newest sample first. */
  function Window(signal: seq<real>, taps: nat, n: nat): (x: seq<real>)
    requires n + taps <= |signal|
    ensures |x| == taps && forall k :: 0 <= k < taps ==> x[k] == signal[n + taps - 1 - k]
  {
    Reverse(signal[n..n + taps])
  }

  /** step * normFactor * e, the coefficient of x in the weight update, with normFactor = 1 / (x.x + eps). */
  function Gain(x: seq<real>, err: real, step: real): real
  {
    DotSelfNonNegative(x);
    step * (1.0 / (Dot(x, x) + Eps)) * err
  }

  /** The NLMS update w + gain * x. */
  function Update(w: seq<real>, x: seq<real>, gain: real): (w': seq<real>)
    requires |w| == |x|
    ensures |w'| == |w|
  {
    Add(w, Scale(gain, x))
  }

  /**
   * What a call of nlms needs so that it does not raise: the windows fit, the
   * target is long enough and not empty, the weights have one entry per tap.
   */
  ghost predicate WellFormed(signal: seq<real>, desired: seq<real>, taps: nat, w0: seq<real>)
  {
    taps <= |signal| <= |desired| && 1 <= |desired| && |w0| == taps
  }

  /**
   * desired_signal[n + n_filter_taps - 1], read as Python reads an index:
   * with no tap at all, iteration 0 reads index -1, the last sample.
   */
  function Target(desired: seq<real>, taps: nat, n: nat): real
    requires 1 <= |desired| && n + taps <= |desired|
  {
    if n + taps >= 1 then desired[n + taps - 1] else desired[|desired| - 1]
  }

  /** The weights after n iterations. */
  function Weights(signal: seq<real>, desired: seq<real>, taps: nat, step: real, w0: seq<real>, adapt: bool, n: nat): (w: seq<real>)
    requires WellFormed(signal, desired, taps, w0) && n <= Iterations(signal, taps)
    ensures |w| == taps
  {
    if n == 0 then w0
    else
      var w := Weights(signal, desired, taps, step, w0, adapt, n - 1);
      var x := Window(signal, taps, n - 1);
      if adapt then Update(w, x, Gain(x, Target(desired, taps, n - 1) - Dot(x, w), step)) else w
  }

  /** e[n]: the target sample aligned with the newest sample of the window, minus the prediction with the weights before the update. */
  function ErrorAt(signal: seq<real>, desired: seq<real>, taps: nat, step: real, w0: seq<real>, adapt: bool, n: nat): real
    requires WellFormed(signal, desired, taps, w0) && n < Iterations(signal, taps)
  {
    Target(desired, taps, n) - Dot(Window(signal, taps, n), Weights(signal, desired, taps, step, w0, adapt, n))
  }

  /** y[n]: the prediction with the weights after iteration n (the same weights when not adapting). */
  function OutputAt(signal: seq<real>, desired: seq<real>, taps: nat, step: real, w0: seq<real>, adapt: bool, n: nat): real
    requires WellFormed(signal, desired, taps, w0) && n < Iterations(signal, taps)
  {
    Dot(Window(signal, taps, n), Weights(signal, desired, taps, step, w0, adapt, n + 1))
  }

  /**
   * nlms: one iteration per window; with no window at all the weights are
   * returned untouched.  numpy raises when the number of iterations is
   * negative, when the weights and the window differ in length, and when the
   * target is shorter than the input or, with no tap, empty.
   */
  method Nlms(signal: seq<real>, desired: seq<real>, taps: nat, step: real, initCoeffs: Option<seq<real>>, adapt: bool)
    returns (r: Result<NlmsOutput>)
    ensures Iterations(signal, taps) < 0 ==> r.Err?
    ensures Iterations(signal, taps) == 0 ==> r == Ok(NlmsOutput([], [], InitialWeights(initCoeffs, taps)))
    ensures Iterations(signal, taps) > 0 ==>
      (r.Ok? <==> WellFormed(signal, desired, taps, InitialWeights(initCoeffs, taps)))
    ensures r.Ok? && Iterations(signal, taps) > 0 ==>
      var w0 := InitialWeights(initCoeffs, taps);
      var iters := Iterations(signal, taps);
      WellFormed(signal, desired, taps, w0) &&
      r.value.w == Weights(signal, desired, taps, step, w0, adapt, iters) &&
      |r.value.y| == iters == |r.value.e| &&
      (forall n :: 0 <= n < iters ==> r.value.y[n] == OutputAt(signal, desired, taps, step, w0, adapt, n)) &&
      (forall n :: 0 <= n < iters ==> r.value.e[n] == ErrorAt(signal, desired, taps, step, w0, adapt, n))
  {
    var iters := |signal| - taps + 1;
    if iters < 0 {
      return Err("negative dimensions are not allowed");
    }
    var w0 := if initCoeffs.None? then seq(taps, _ => 0.0) else initCoeffs.value;
    if iters == 0 {
      return Ok(NlmsOutput([], [], w0));
    }
    if |w0| != taps {
      return Err("shapes not aligned");
    }
    if |desired| < |signal| || |desired| == 0 {
      return Err("index out of bounds");
    }
    var out := Filter(signal, desired, taps, step, w0, adapt);
    return Ok(out);
  }

  /** The filtering loop of nlms, on inputs for which it does not raise. */
  method Filter(signal: seq<real>, desired: seq<real>, taps: nat, step: real, w0: seq<real>, adapt: bool)
    returns (out: NlmsOutput)
    requires WellFormed(signal, desired, taps, w0)
    ensures out.w == Weights(signal, desired, taps, step, w0, adapt, Iterations(signal, taps))
    ensures |out.y| == Iterations(signal, taps) == |out.e|
    ensures forall n :: 0 <= n < Iterations(signal, taps) ==> out.y[n] == OutputAt(signal, desired, taps, step, w0, adapt, n)
    ensures forall n :: 0 <= n < Iterations(signal, taps) ==> out.e[n] == ErrorAt(signal, desired, taps, step, w0, adapt, n)
  {
    var iters := |signal| - taps + 1;
    var y := new real[iters](_ => 0.0);
    var e := new real[iters](_ => 0.0);
    var w := w0;
    for n := 0 to iters
      invariant w == Weights(signal, desired, taps, step, w0, adapt, n)
      invariant Filtered(signal, desired, taps, step, w0, adapt, y, e, n)
    {
      w := Iteration(signal, desired, taps, step, w0, adapt, n, w, y, e);
    }
    return NlmsOutput(y[..], e[..], w);
  }

  /** The first n outputs and errors have been written. */
  ghost predicate Filtered(signal: seq<real>, desired: seq<real>, taps: nat, step: real, w0: seq<real>, adapt: bool,
                           y: array<real>, e: array<real>, n: nat)
    reads y, e
  {
    WellFormed(signal, desired, taps, w0) && n <= Iterations(signal, taps) && n <= y.Length && n <= e.Length &&
    forall k :: 0 <= k < n ==>
      y[k] == OutputAt(signal, desired, taps, step, w0, adapt, k) && e[k] == ErrorAt(signal, desired, taps, step, w0, adapt, k)
  }

  /** Iteration n of the nlms loop: writes y[n] and e[n] and returns the next weights. */
  method Iteration(signal: seq<real>, desired: seq<real>, taps: nat, step: real, w0: seq<real>, adapt: bool,
                   n: nat, w: seq<real>, y: array<real>, e: array<real>) returns (w': seq<real>)
    requires WellFormed(signal, desired, taps, w0) && n < Iterations(signal, taps)
    requires n < y.Length && n < e.Length && y != e
    requires w == Weights(signal, desired, taps, step, w0, adapt, n)
    requires Filtered(signal, desired, taps, step, w0, adapt, y, e, n)
    modifies y, e
    ensures w' == Weights(signal, desired, taps, step, w0, adapt, n + 1)
    ensures Filtered(signal, desired, taps, step, w0, adapt, y, e, n + 1)
  {
    WeightsStep(signal, desired, taps, step, w0, adapt, n);
    var x := Window(signal, taps, n);
    var prediction := Dot(x, w);
    var error := Target(desired, taps, n) - prediction;
    w' := w;
    if adapt {
      w' := Update(w, x, Gain(x, error, step));
    }
    assert error == ErrorAt(signal, desired, taps, step, w0, adapt, n) && Dot(x, w') == OutputAt(signal, desired, taps, step, w0, adapt, n);
    // y[n] holds the prediction with the weights after the update, e[n] the error before it
    y[n] := Dot(x, w');
    e[n] := error;
  }

  /** One iteration: the weights move by the update of that iteration's error, or stay when not adapting. */
  lemma WeightsStep(signal: seq<real>, desired: seq<real>, taps: nat, step: real, w0: seq<real>, adapt: bool, n: nat)
    requires WellFormed(signal, desired, taps, w0) && n < Iterations(signal, taps)
    ensures adapt ==>
      Weights(signal, desired, taps, step, w0, adapt, n + 1) ==
      Update(Weights(signal, desired, taps, step, w0, adapt, n), Window(signal, taps, n),
             Gain(Window(signal, taps, n), ErrorAt(signal, desired, taps, step, w0, adapt, n), step))
    ensures !adapt ==> Weights(signal, desired, taps, step, w0, adapt, n + 1) == Weights(signal, desired, taps, step, w0, adapt, n)
  {
    var k := n + 1;
    assert k - 1 == n;
  }

  // ---------------------------------------------------------------------
  // What the filter promises

  /** Without adaptation the weights never move: the returned w is initCoeffs. */
  lemma {:induction false} FrozenWeights(signal: seq<real>, desired: seq<real>, taps: nat, step: real, w0: seq<real>, n: nat)
    requires WellFormed(signal, desired, taps, w0) && n <= Iterations(signal, taps)
    ensures Weights(signal, desired, taps, step, w0, false, n) == w0
  {
    if n > 0 {
      FrozenWeights(signal, desired, taps, step, w0, n - 1);
    }
  }

  /** With a zero step the adapting pass leaves the weights where they started too. */
  lemma {:induction false} ZeroStepWeights(signal: seq<real>, desired: seq<real>, taps: nat, w0: seq<real>, n: nat)
    requires WellFormed(signal, desired, taps, w0) && n <= Iterations(signal, taps)
    ensures Weights(signal, desired, taps, 0.0, w0, true, n) == w0
  {
    if n > 0 {
      ZeroStepWeights(signal, desired, taps, w0, n - 1);
      var w := Weights(signal, desired, taps, 0.0, w0, true, n - 1);
      var x := Window(signal, taps, n - 1);
      var u := Update(w, x, Gain(x, Target(desired, taps, n - 1) - Dot(x, w), 0.0));
      assert u == w by {
        forall k | 0 <= k < |w| ensures u[k] == w[k] { }
      }
    }
  }

  /** Without adaptation the output is the prediction and the error is the target minus it. */
  lemma FrozenOutput(signal: seq<real>, desired: seq<real>, taps: nat, step: real, w0: seq<real>, n: nat)
    requires WellFormed(signal, desired, taps, w0) && n < Iterations(signal, taps)
    ensures OutputAt(signal, desired, taps, step, w0, false, n) == Dot(Window(signal, taps, n), w0)
    ensures ErrorAt(signal, desired, taps, step, w0, false, n) == Target(desired, taps, n) - Dot(Window(signal, taps, n), w0)
  {
    FrozenWeights(signal, desired, taps, step, w0, n);
    FrozenWeights(signal, desired, taps, step, w0, n + 1);
  }

  // ---------------------------------------------------------------------
  // rectify_illumination (illum_utils.py:23-59)

  /**
   * rectify_illumination: learn the weights on background -> face with the
   * adapting pass, then filter again with those weights frozen and return
   * the second pass's error.
   */
  method RectifyIllumination(faceColor: seq<real>, bgColor: seq<real>, step: real, length: nat)
    returns (r: Result<seq<real>>)
    ensures r.Ok? <==> ((Iterations(bgColor, length) > 0 && |faceColor| >= |bgColor| && |faceColor| >= 1) ||
                        Iterations(bgColor, length) == 0)
    ensures r.Ok? && Iterations(bgColor, length) > 0 ==>
      var zeros := InitialWeights(None, length);
      WellFormed(bgColor, faceColor, length, zeros) &&
      var learned := Weights(bgColor, faceColor, length, step, zeros, true, Iterations(bgColor, length));
      |r.value| == Iterations(bgColor, length) &&
      forall n :: 0 <= n < |r.value| ==>
        r.value[n] == Target(faceColor, length, n) - Dot(Window(bgColor, length, n), learned)
    ensures r.Ok? && Iterations(bgColor, length) == 0 ==> r.value == []
  {
    var first := Nlms(bgColor, faceColor, length, step, None, true);
    if first.Err? {
      return Err(first.reason);
    }
    var second := Nlms(bgColor, faceColor, length, step, Some(first.value.w), false);
    assert second.Ok?;
    if Iterations(bgColor, length) > 0 {
      var zeros := InitialWeights(None, length);
      var learned := first.value.w;
      forall n | 0 <= n < Iterations(bgColor, length)
        ensures second.value.e[n] == Target(faceColor, length, n) - Dot(Window(bgColor, length, n), learned)
      {
        FrozenOutput(bgColor, faceColor, length, step, learned, n);
      }
    }
    return Ok(second.value.e);
  }

  /** With a zero step the rectified signal is the face signal itself, from sample length - 1 on. */
  lemma RectifyWithZeroStep(faceColor: seq<real>, bgColor: seq<real>, length: nat, n: nat)
    requires WellFormed(bgColor, faceColor, length, InitialWeights(None, length))
    requires n < Iterations(bgColor, length)
    ensures Target(faceColor, length, n) - Dot(Window(bgColor, length, n),
      Weights(bgColor, faceColor, length, 0.0, InitialWeights(None, length), true, Iterations(bgColor, length)))
      == Target(faceColor, length, n)
  {
    var zeros := InitialWeights(None, length);
    ZeroStepWeights(bgColor, faceColor, length, zeros, Iterations(bgColor, length));
    DotSymmetric(Window(bgColor, length, n), zeros);
    DotZero(zeros, Window(bgColor, length, n));
  }

  /**
   * A filter of length 0: one iteration per sample plus one, every window
   * and every weight vector empty, so the output is 0 and each error is a
   * target sample, iteration 0 reading the last one (index -1).
   */
  lemma NoTaps(signal: seq<real>, desired: seq<real>, step: real, adapt: bool, n: nat)
    requires WellFormed(signal, desired, 0, []) && n < Iterations(signal, 0)
    ensures Iterations(signal, 0) == |signal| + 1
    ensures OutputAt(signal, desired, 0, step, [], adapt, n) == 0.0
    ensures ErrorAt(signal, desired, 0, step, [], adapt, n) == if n == 0 then desired[|desired| - 1] else desired[n - 1]
  {
    assert Window(signal, 0, n) == [];
  }
}
