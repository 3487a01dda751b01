/*
 * The last stage shared by the two CHROM scripts
 * (bob/rppg/chrom/script/extract_pulse.py:296-310 and
 * extract_pulse_from_mask.py:280-294): the band-passed chrominance signals
 * x and y are combined into one pulse signal, and, when a window size is
 * given, the pulse is rebuilt window by window in place (overlap-add).
 * scipy.signal.filtfilt, numpy.std and numpy.hanning are parameters.
 */
module PulseCombination {
  import opened Numerics

  /** numpy.hanning(n)[k]: weight k of the Hanning window of n points. */
  type Hanning = (nat, nat) -> real

  /** pulse = x - alpha y with alpha = std(x) / std(y). */
  function Combine(x: seq<real>, y: seq<real>, std: StdDev): (p: seq<real>)
    requires |x| == |y|
    ensures |p| == |x|
    ensures forall k :: 0 <= k < |x| ==> p[k] == x[k] - Quot(std(x), std(y)) * y[k]
  {
    Sub(x, Scale(Quot(std(x), std(y)), y))
  }

  /**
   * What the combination is for: a distortion that moves x and y in lockstep
   * (x = a y, so that std(x) = a std(y) for a >= 0) cancels completely.
   */
  lemma {:induction false} CombineCancelsProportional(x: seq<real>, y: seq<real>, a: real, std: StdDev)
    requires |x| == |y| && a >= 0.0
    requires forall k :: 0 <= k < |x| ==> x[k] == a * y[k]
    requires std(x) == a * std(y) && std(y) != 0.0
    ensures forall k :: 0 <= k < |x| ==> Combine(x, y, std)[k] == 0.0
  {
    assert Quot(std(x), std(y)) == a;
  }

  /** The band-passed signals of the window starting at w, combined with the window's own alpha and weighted by the Hanning window. */
  function LocalPulse(x: seq<real>, y: seq<real>, w: nat, ws: nat, std: StdDev, hann: Hanning): (sw: seq<real>)
    requires |x| == |y| && w + ws <= |x|
    ensures |sw| == ws
    ensures forall i :: 0 <= i < ws ==> sw[i] == Combine(x[w..w + ws], y[w..w + ws], std)[i] * hann(ws, i)
  {
    var local := Combine(x[w..w + ws], y[w..w + ws], std);
    seq(ws, i requires 0 <= i < ws => local[i] * hann(ws, i))
  }

  /** s with the ws values from w on replaced by v. */
  function Splice(s: seq<real>, w: nat, v: seq<real>): (r: seq<real>)
    requires w + |v| <= |s|
    ensures |r| == |s|
    ensures forall j :: 0 <= j < |s| ==> r[j] == if w <= j < w + |v| then v[j - w] else s[j]
  {
    seq(|s|, j requires 0 <= j < |s| => if w <= j < w + |v| then v[j - w] else s[j])
  }

  /** The start of window m: m strides from 0. */
  function WindowStart(m: nat, stride: nat): (w: nat)
  {
    if m == 0 then 0 else WindowStart(m - 1, stride) + stride
  }

  /** Window starts grow with m, by at least one stride per window. */
  lemma {:induction false} WindowStartMonotone(m: nat, m': nat, stride: nat)
    requires m <= m'
    ensures WindowStart(m, stride) <= WindowStart(m', stride)
    ensures m < m' ==> WindowStart(m, stride) + stride <= WindowStart(m', stride)
    decreases m' - m
  {
    if m < m' {
      WindowStartMonotone(m, m' - 1, stride);
    }
  }

  /** The number of starts from window m on that range(0, n - ws, stride) still produces. */
  function WindowsFrom(m: nat, n: nat, ws: nat, stride: nat): (count: nat)
    requires stride > 0
    decreases n - WindowStart(m, stride)
  {
    if WindowStart(m, stride) < n - ws then 1 + WindowsFrom(m + 1, n, ws, stride) else 0
  }

  lemma {:induction false} WindowsFromExact(m: nat, n: nat, ws: nat, stride: nat, m': nat)
    requires stride > 0 && m <= m'
    ensures m' < m + WindowsFrom(m, n, ws, stride) <==> WindowStart(m', stride) < n - ws
    decreases n - WindowStart(m, stride)
  {
    WindowStartMonotone(m, m', stride);
    if WindowStart(m, stride) < n - ws && m < m' {
      WindowsFromExact(m + 1, n, ws, stride, m');
    }
  }

  /** The number of starts in range(0, n - ws, stride). */
  function WindowCount(n: nat, ws: nat, stride: nat): (count: nat)
    requires stride > 0
    ensures forall m: nat :: m < count <==> WindowStart(m, stride) < n - ws
  {
    forall m: nat ensures m < WindowsFrom(0, n, ws, stride) <==> WindowStart(m, stride) < n - ws {
      WindowsFromExact(0, n, ws, stride, m);
    }
    WindowsFrom(0, n, ws, stride)
  }

  /** Every frame has ws samples and, placed at its window's start, lies inside a signal of n samples. */
  ghost predicate Framed(frames: seq<seq<real>>, n: nat, ws: nat, stride: nat)
  {
    forall m :: 0 <= m < |frames| ==> |frames[m]| == ws && WindowStart(m, stride) + ws <= n
  }

  /** p after the first k frames have been written over it, frame m from the start of window m on. */
  function Windowed(p: seq<real>, frames: seq<seq<real>>, ws: nat, stride: nat, k: nat): (r: seq<real>)
    requires k <= |frames| && Framed(frames, |p|, ws, stride)
    ensures |r| == |p|
  {
    if k == 0 then p
    else Splice(Windowed(p, frames, ws, stride, k - 1), WindowStart(k - 1, stride), frames[k - 1])
  }

  /** The weighted local pulse of every window of range(0, len(x) - ws, stride), in order. */
  function Frames(x: seq<real>, y: seq<real>, ws: nat, stride: nat, std: StdDev, hann: Hanning): (frames: seq<seq<real>>)
    requires |x| == |y| && stride > 0
    ensures |frames| == WindowCount(|x|, ws, stride) && Framed(frames, |x|, ws, stride)
    ensures forall m :: 0 <= m < |frames| ==> frames[m] == LocalPulse(x, y, WindowStart(m, stride), ws, std, hann)
  {
    var count := WindowCount(|x|, ws, stride);
    seq(count, m requires 0 <= m < count => LocalPulse(x, y, WindowStart(m, stride), ws, std, hann))
  }

  /** Window m covers sample j. */
  predicate Covers(m: nat, stride: nat, ws: nat, j: int)
  {
    WindowStart(m, stride) <= j < WindowStart(m, stride) + ws
  }

  /** One step at sample j: frame m, the k-th one, overwrites j when its window covers it. */
  lemma {:induction false} WindowedStep(p: seq<real>, frames: seq<seq<real>>, ws: nat, stride: nat, m: nat, k: nat, j: nat)
    requires k == m + 1 && k <= |frames| && Framed(frames, |p|, ws, stride) && j < |p|
    ensures !Covers(m, stride, ws, j) ==> Windowed(p, frames, ws, stride, k)[j] == Windowed(p, frames, ws, stride, m)[j]
    ensures Covers(m, stride, ws, j) ==> Windowed(p, frames, ws, stride, k)[j] == frames[m][j - WindowStart(m, stride)]
  {
    assert Windowed(p, frames, ws, stride, k) == Splice(Windowed(p, frames, ws, stride, m), WindowStart(m, stride), frames[m]);
  }

  /** Windows k0 .. k - 1 that do not cover sample j leave it as it was after window k0 - 1. */
  lemma {:induction false} WindowedUnchanged(p: seq<real>, frames: seq<seq<real>>, ws: nat, stride: nat, k0: nat, k: nat, j: nat)
    requires k0 <= k <= |frames| && Framed(frames, |p|, ws, stride) && j < |p|
    requires forall m: nat :: k0 <= m < k ==> !Covers(m, stride, ws, j)
    ensures Windowed(p, frames, ws, stride, k)[j] == Windowed(p, frames, ws, stride, k0)[j]
    decreases k
  {
    if k > k0 {
      var previous: nat := k - 1;
      WindowedStep(p, frames, ws, stride, previous, k, j);
      WindowedUnchanged(p, frames, ws, stride, k0, previous, j);
    }
  }

  /** A covered sample holds the frame of the last window that covers it: later windows overwrite earlier ones. */
  lemma {:induction false} WindowedLastWriter(p: seq<real>, frames: seq<seq<real>>, ws: nat, stride: nat, k: nat, m: nat, j: nat)
    requires k <= |frames| && Framed(frames, |p|, ws, stride) && j < |p|
    requires m < k && Covers(m, stride, ws, j)
    requires forall m': nat :: m < m' < k ==> !Covers(m', stride, ws, j)
    ensures Windowed(p, frames, ws, stride, k)[j] == frames[m][j - WindowStart(m, stride)]
  {
    var next: nat := m + 1;
    WindowedStep(p, frames, ws, stride, m, next, j);
    WindowedUnchanged(p, frames, ws, stride, next, k, j);
  }

  /** The pulse after the overlap-add with k windows. */
  function Overlapped(p: seq<real>, x: seq<real>, y: seq<real>, ws: nat, stride: nat, std: StdDev, hann: Hanning, k: nat): (r: seq<real>)
    requires |p| == |x| == |y| && stride > 0 && k <= WindowCount(|p|, ws, stride)
  {
    Windowed(p, Frames(x, y, ws, stride, std, hann), ws, stride, k)
  }

  /**
   * In the overlap-added pulse, a sample covered by some window holds the
   * weighted local pulse of the last window that covers it.
   */
  lemma {:induction false} OverlappedLastWriter(p: seq<real>, x: seq<real>, y: seq<real>, ws: nat, stride: nat, std: StdDev, hann: Hanning,
                                                m: nat, j: nat)
    requires |p| == |x| == |y| && stride > 0 && j < |p|
    requires m < WindowCount(|p|, ws, stride) && Covers(m, stride, ws, j)
    requires forall m': nat :: m < m' < WindowCount(|p|, ws, stride) ==> !Covers(m', stride, ws, j)
    ensures WindowStart(m, stride) + ws <= |p|
    ensures Overlapped(p, x, y, ws, stride, std, hann, WindowCount(|p|, ws, stride))[j] ==
      LocalPulse(x, y, WindowStart(m, stride), ws, std, hann)[j - WindowStart(m, stride)]
  {
    var frames := Frames(x, y, ws, stride, std, hann);
    WindowedLastWriter(p, frames, ws, stride, |frames|, m, j);
  }

  /** Samples that no window reaches keep the pulse computed with the global alpha. */
  lemma {:induction false} OverlappedTail(p: seq<real>, x: seq<real>, y: seq<real>, ws: nat, stride: nat, std: StdDev, hann: Hanning, j: nat)
    requires |p| == |x| == |y| && stride > 0 && j < |p|
    requires var count := WindowCount(|p|, ws, stride);
      count == 0 || j >= WindowStart(count - 1, stride) + ws
    ensures Overlapped(p, x, y, ws, stride, std, hann, WindowCount(|p|, ws, stride))[j] == p[j]
  {
    var frames := Frames(x, y, ws, stride, std, hann);
    var count := |frames|;
    forall m: nat | m < count ensures !Covers(m, stride, ws, j) {
      WindowStartMonotone(m, count - 1, stride);
    }
    WindowedUnchanged(p, frames, ws, stride, 0, count, j);
  }

  /** pulse[w:w+ws] = 0.0 */
  method ZeroWindow(pulse: array<real>, w: nat, ws: nat)
    requires w + ws <= pulse.Length
    modifies pulse
    ensures pulse[..] == Splice(old(pulse[..]), w, seq(ws, _ => 0.0))
  {
    for j := 0 to ws
      invariant forall i :: 0 <= i < pulse.Length ==> pulse[i] == if w <= i < w + j then 0.0 else old(pulse[i])
    {
      pulse[w + j] := 0.0;
    }
  }

  /** pulse[w:w+ws] += sw */
  method AddWindow(pulse: array<real>, w: nat, sw: seq<real>)
    requires w + |sw| <= pulse.Length
    modifies pulse
    ensures forall i :: 0 <= i < pulse.Length ==> pulse[i] == if w <= i < w + |sw| then old(pulse[i]) + sw[i - w] else old(pulse[i])
  {
    for j := 0 to |sw|
      invariant forall i :: 0 <= i < pulse.Length ==> pulse[i] == if w <= i < w + j then old(pulse[i]) + sw[i - w] else old(pulse[i])
    {
      pulse[w + j] := pulse[w + j] + sw[j];
    }
  }

  /** One window of the overlap-add: first zero the window, then add its weighted local pulse. */
  method ApplyWindow(pulse: array<real>, x: seq<real>, y: seq<real>, w: nat, ws: nat, std: StdDev, hann: Hanning)
    requires pulse.Length == |x| == |y| && w + ws <= |x|
    modifies pulse
    ensures pulse[..] == Splice(old(pulse[..]), w, LocalPulse(x, y, w, ws, std, hann))
  {
    ZeroWindow(pulse, w, ws);
    var sw := LocalPulse(x, y, w, ws, std, hann);
    AddWindow(pulse, w, sw);
    assert pulse[..] == Splice(old(pulse[..]), w, sw) by {
      forall i | 0 <= i < pulse.Length ensures pulse[i] == Splice(old(pulse[..]), w, sw)[i] {
        if w <= i < w + ws {
          assert pulse[i] == 0.0 + sw[i - w];
        }
      }
    }
  }

  /** The test of the overlap-add loop: its start w = WindowStart(k) is below len(pulse) - ws exactly while windows remain. */
  lemma OverlapTest(n: nat, ws: nat, stride: nat, k: nat)
    requires stride > 0
    ensures WindowStart(k, stride) < n - ws <==> k < WindowCount(n, ws, stride)
  {
  }

  /** The pulse after one more window: window k spliced in. */
  lemma OverlappedStep(p: seq<real>, x: seq<real>, y: seq<real>, ws: nat, stride: nat, std: StdDev, hann: Hanning, k: nat)
    requires |p| == |x| == |y| && stride > 0 && k < WindowCount(|p|, ws, stride)
    ensures WindowStart(k, stride) + ws <= |p|
    ensures Overlapped(p, x, y, ws, stride, std, hann, k + 1) ==
      Splice(Overlapped(p, x, y, ws, stride, std, hann, k), WindowStart(k, stride), LocalPulse(x, y, WindowStart(k, stride), ws, std, hann))
  {
  }

  /** One turn of the overlap-add loop: window k, starting at w below len(pulse) - ws, is applied. */
  method OverlapTurn(pulse: array<real>, ghost p: seq<real>, x: seq<real>, y: seq<real>, ws: nat, stride: nat, std: StdDev, hann: Hanning,
                     w: nat, ghost k: nat)
    requires pulse.Length == |p| == |x| == |y| && stride > 0 && w == WindowStart(k, stride) && w < pulse.Length - ws
    requires k <= WindowCount(|p|, ws, stride) && pulse[..] == Overlapped(p, x, y, ws, stride, std, hann, k)
    modifies pulse
    ensures k + 1 <= WindowCount(|p|, ws, stride) && pulse[..] == Overlapped(p, x, y, ws, stride, std, hann, k + 1)
  {
    OverlapTest(|p|, ws, stride, k);
    OverlappedStep(p, x, y, ws, stride, std, hann, k);
    ApplyWindow(pulse, x, y, w, ws, std, hann);
  }

  /**
   * The overlap-add loop `for w in range(0, len(pulse) - ws, ws / 2)` over
   * the pulse array, in place; the stride is Python 2's integer division.
   */
  method OverlapAdd(pulse: array<real>, x: seq<real>, y: seq<real>, ws: nat, std: StdDev, hann: Hanning)
    requires pulse.Length == |x| == |y| && ws / 2 > 0
    modifies pulse
    ensures pulse[..] == Overlapped(old(pulse[..]), x, y, ws, ws / 2, std, hann, WindowCount(pulse.Length, ws, ws / 2))
  {
    var stride := ws / 2;
    ghost var p := pulse[..];
    var w := 0;
    ghost var k := 0;
    while w < pulse.Length - ws
      invariant k <= WindowCount(|p|, ws, stride) && w == WindowStart(k, stride)
      invariant pulse[..] == Overlapped(p, x, y, ws, stride, std, hann, k)
      decreases pulse.Length - w
    {
      OverlapTurn(pulse, p, x, y, ws, stride, std, hann, w, k);
      w, k := w + stride, k + 1;
    }
    OverlapTest(|p|, ws, stride, k);
    assert p == old(pulse[..]) && stride == ws / 2 && k == WindowCount(pulse.Length, ws, ws / 2);
  }

  /**
   * Lines 296-310: the global combination, then, for a positive window size,
   * the overlap-add.  A window size of 1 makes the stride 0, and range()
   * raises.
   */
  method PulseFromChrominance(x: seq<real>, y: seq<real>, window: int, std: StdDev, hann: Hanning) returns (r: Result<seq<real>>)
    requires |x| == |y|
    ensures window == 1 ==> r == Err("range() step argument must not be zero")
    ensures window != 1 ==> r == Ok(FinalPulse(x, y, window, std, hann))
  {
    var pulse := new real[|x|];
    var p := Combine(x, y, std);
    for i := 0 to |x|
      invariant forall j :: 0 <= j < i ==> pulse[j] == p[j]
    {
      pulse[i] := p[i];
    }
    assert pulse[..] == p;
    if window > 0 {
      if window / 2 == 0 {
        return Err("range() step argument must not be zero");
      }
      OverlapAdd(pulse, x, y, window, std, hann);
    }
    return Ok(pulse[..]);
  }

  /** The pulse the scripts save, for a window size other than 1. */
  function FinalPulse(x: seq<real>, y: seq<real>, window: int, std: StdDev, hann: Hanning): (r: seq<real>)
    requires |x| == |y|
    ensures |r| == |x|
    ensures window <= 0 ==> r == Combine(x, y, std)
  {
    if window > 1 then Overlapped(Combine(x, y, std), x, y, window, window / 2, std, hann, WindowCount(|x|, window, window / 2))
    else Combine(x, y, std)
  }

  /** scipy.signal.filtfilt(b, [1], x)[k] for a signal x longer than the padding: sample k of the filtered signal. */
  type Filtfilt = (seq<real>, seq<real>, nat) -> real

  /** scipy.signal.filtfilt(b, [1], x): a signal as long as x. */
  function FiltFilt(filtfilt: Filtfilt, b: seq<real>, x: seq<real>): (y: seq<real>)
    ensures |y| == |x|
  {
    seq(|x|, k requires 0 <= k < |x| => filtfilt(b, x, k))
  }

  /** filtfilt's default padding, 3 * max(len(a), len(b)) with a = [1]. */
  function PadLength(taps: seq<real>): (n: nat)
    ensures n >= 3 && n >= 3 * |taps|
  {
    3 * Max(|taps|, 1)
  }

  /**
   * From the chrominance signals to the saved pulse: both are band-passed
   * (filtfilt raises on a signal no longer than its padding), then
   * combined; a window size of 1 raises in range().
   */
  function Bandpassed(x: seq<real>, y: seq<real>, taps: seq<real>, window: int, filtfilt: Filtfilt, std: StdDev, hann: Hanning): (r: Result<seq<real>>)
    requires |x| == |y|
    ensures r.Err? <==> |x| <= PadLength(taps) || window == 1
    ensures r.Ok? ==> |r.value| == |x| && r.value == FinalPulse(FiltFilt(filtfilt, taps, x), FiltFilt(filtfilt, taps, y), window, std, hann)
  {
    if |x| <= PadLength(taps) then Err("The length of the input vector x must be greater than padlen")
    else if window == 1 then Err("range() step argument must not be zero")
    else Ok(FinalPulse(FiltFilt(filtfilt, taps, x), FiltFilt(filtfilt, taps, y), window, std, hann))
  }

  /** Lines 264-310: band-pass both signals, then combine them into the pulse array. */
  method BandpassAndCombine(x: seq<real>, y: seq<real>, taps: seq<real>, window: int, filtfilt: Filtfilt, std: StdDev, hann: Hanning)
    returns (r: Result<seq<real>>)
    requires |x| == |y|
    ensures r == Bandpassed(x, y, taps, window, filtfilt, std, hann)
  {
    if |x| <= PadLength(taps) {
      return Err("The length of the input vector x must be greater than padlen");
    }
    var xb := FiltFilt(filtfilt, taps, x);
    var yb := FiltFilt(filtfilt, taps, y);
    r := PulseFromChrominance(xb, yb, window, std, hann);
  }
}
