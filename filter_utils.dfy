/*
 * bob/rppg/cvpr14/filter_utils.py: the smoothness-priors detrending filter
 * and the moving-average filter of Li et al. (CVPR 2014).
 *
 * Matrices are sequences of rows.  numpy.linalg.inv is a parameter; the
 * lemmas that need it to be an inverse say so in their requires.
 */
module FilterUtils {
  import opened Numerics

  type Matrix = seq<seq<real>>

  predicate IsMatrix(m: Matrix, rows: nat, cols: nat)
  {
    |m| == rows && forall i :: 0 <= i < rows ==> |m[i]| == cols
  }

  /** numpy.identity(n). */
  function Identity(n: nat): (m: Matrix)
    ensures IsMatrix(m, n, n)
  {
    seq(n, i requires 0 <= i < n => seq(n, j requires 0 <= j < n => if i == j then 1.0 else 0.0))
  }

  /** The j-th column of a matrix with at least j + 1 columns. */
  function Column(m: Matrix, j: nat): (c: seq<real>)
    requires forall i :: 0 <= i < |m| ==> j < |m[i]|
    ensures |c| == |m|
  {
    seq(|m|, i requires 0 <= i < |m| => m[i][j])
  }

  /** The transpose of a rows x cols matrix. */
  function Transpose(m: Matrix, cols: nat): (t: Matrix)
    requires IsMatrix(m, |m|, cols)
    ensures IsMatrix(t, cols, |m|)
  {
    seq(cols, j requires 0 <= j < cols => Column(m, j))
  }

  /** numpy.dot of a matrix and a vector. */
  function MatVec(m: Matrix, v: seq<real>): (r: seq<real>)
    requires IsMatrix(m, |m|, |v|)
    ensures |r| == |m|
  {
    seq(|m|, i requires 0 <= i < |m| => Dot(m[i], v))
  }

  /** numpy.dot of two matrices: a is n x k, b is k x cols. */
  function MatMul(a: Matrix, b: Matrix, cols: nat): (r: Matrix)
    requires IsMatrix(a, |a|, |b|) && IsMatrix(b, |b|, cols)
    ensures IsMatrix(r, |a|, cols)
  {
    seq(|a|, i requires 0 <= i < |a| => seq(cols, j requires 0 <= j < cols => Dot(a[i], Column(b, j))))
  }

  /** The row vector a times the matrix b. */
  function VecMat(a: seq<real>, b: Matrix, cols: nat): (r: seq<real>)
    requires IsMatrix(b, |a|, cols)
    ensures |r| == cols
  {
    seq(cols, j requires 0 <= j < cols => Dot(a, Column(b, j)))
  }

  /** Peeling the last row of b off a row-vector product. */
  lemma VecMatLast(a: seq<real>, b: Matrix, cols: nat)
    requires IsMatrix(b, |a|, cols) && |a| > 0
    ensures var n := |a| - 1;
      VecMat(a, b, cols) == Add(VecMat(a[..n], b[..n], cols), Scale(a[n], b[n]))
  {
    var n := |a| - 1;
    var lhs := VecMat(a, b, cols);
    var rhs := Add(VecMat(a[..n], b[..n], cols), Scale(a[n], b[n]));
    forall j | 0 <= j < cols ensures lhs[j] == rhs[j] {
      var col := Column(b, j);
      assert col[..n] == Column(b[..n], j);
      assert lhs[j] == Dot(a[..n], col[..n]) + a[n] * col[n];
    }
  }

  /** (a b) v == a (b v), one row at a time. */
  lemma {:induction false} VecMatDot(a: seq<real>, b: Matrix, cols: nat, v: seq<real>)
    requires IsMatrix(b, |a|, cols) && |v| == cols
    ensures Dot(VecMat(a, b, cols), v) == Dot(a, MatVec(b, v))
    decreases |a|
  {
    if |a| == 0 {
      DotZero(VecMat(a, b, cols), v);
    } else {
      var n := |a| - 1;
      var a', b' := a[..n], b[..n];
      var bv := MatVec(b, v);
      calc {
        Dot(VecMat(a, b, cols), v);
        { VecMatLast(a, b, cols); }
        Dot(Add(VecMat(a', b', cols), Scale(a[n], b[n])), v);
        { DotLinear(VecMat(a', b', cols), b[n], a[n], v); }
        Dot(VecMat(a', b', cols), v) + a[n] * Dot(b[n], v);
        { VecMatDot(a', b', cols, v); }
        Dot(a', MatVec(b', v)) + a[n] * Dot(b[n], v);
        { assert bv[..n] == MatVec(b', v); }
        Dot(a', bv[..n]) + a[n] * bv[n];
        Dot(a, bv);
      }
    }
  }

  /** Matrix products associate with applying a vector: (a b) v == a (b v). */
  lemma MatMulAssociates(a: Matrix, b: Matrix, cols: nat, v: seq<real>)
    requires IsMatrix(a, |a|, |b|) && IsMatrix(b, |b|, cols) && |v| == cols
    ensures MatVec(MatMul(a, b, cols), v) == MatVec(a, MatVec(b, v))
  {
    var lhs, rhs := MatVec(MatMul(a, b, cols), v), MatVec(a, MatVec(b, v));
    forall i | 0 <= i < |a| ensures lhs[i] == rhs[i] {
      assert MatMul(a, b, cols)[i] == VecMat(a[i], b, cols);
      VecMatDot(a[i], b, cols, v);
    }
  }

  /** A unit vector picks one coordinate out of a dot product. */
  lemma {:induction false} DotUnit(n: nat, i: nat, v: seq<real>)
    requires i < n == |v|
    ensures Dot(Identity(n)[i], v) == v[i]
  {
    var e := Identity(n)[i];
    assert e == e[..i] + [1.0] + e[i + 1..];
    assert v == v[..i] + [v[i]] + v[i + 1..];
    DotConcat(e[..i] + [1.0], e[i + 1..], v[..i] + [v[i]], v[i + 1..]);
    DotConcat(e[..i], [1.0], v[..i], [v[i]]);
    DotZero(e[..i], v[..i]);
    DotZero(e[i + 1..], v[i + 1..]);
    assert Dot([1.0], [v[i]]) == Dot([], []) + 1.0 * v[i] by {
      assert [1.0][..0] == [] && [v[i]][..0] == [];
    }
  }

  // ---------------------------------------------------------------------
  // Second-order difference matrix (filter_utils.py:49-55)

  /** The entry of scipy.sparse.spdiags(data, offsets, m, n) at (i, j): data[k][j] on the diagonal offsets[k]. */
  function DiagEntry(data: Matrix, offsets: seq<int>, i: int, j: nat): real
    requires |data| == |offsets|
    requires forall k :: 0 <= k < |data| ==> j < |data[k]|
    decreases |offsets|
  {
    if |offsets| == 0 then 0.0
    else if offsets[0] == j - i then data[0][j]
    else DiagEntry(data[1..], offsets[1..], i, j)
  }

  /** scipy.sparse.spdiags(data, offsets, m, n).toarray(). */
  function SpDiags(data: Matrix, offsets: seq<int>, m: nat, n: nat): (d: Matrix)
    requires |data| == |offsets|
    requires forall k :: 0 <= k < |data| ==> |data[k]| == n
    ensures IsMatrix(d, m, n)
  {
    seq(m, i requires 0 <= i < m => seq(n, j requires 0 <= j < n => DiagEntry(data, offsets, i, j)))
  }

  /** D of detrend: spdiags([ones, -2 ones, ones], [0, 1, 2], n - 2, n). */
  function SecondDifference(n: nat): (d: Matrix)
    requires n >= 2
    ensures IsMatrix(d, n - 2, n)
  {
    var ones := seq(n, _ => 1.0);
    var minusTwos := seq(n, _ => -2.0);
    SpDiags([ones, minusTwos, ones], [0, 1, 2], n - 2, n)
  }

  /** Row i of D holds 1, -2, 1 in columns i, i + 1, i + 2 and zeros elsewhere. */
  lemma SecondDifferenceEntries(n: nat, i: nat, j: nat)
    requires n >= 2 && i < n - 2 && j < n
    ensures SecondDifference(n)[i][j] == if j == i || j == i + 2 then 1.0 else if j == i + 1 then -2.0 else 0.0
  {
  }

  /** A three-term dot product written out. */
  lemma Dot3(b: seq<real>, q: seq<real>)
    requires |b| == |q| == 3
    ensures Dot(b, q) == b[0] * q[0] + b[1] * q[1] + b[2] * q[2]
  {
    var b1, q1 := b[..1], q[..1];
    assert b1[..0] == [] && q1[..0] == [];
    assert Dot(b1, q1) == b[0] * q[0];
    assert b[..2][..1] == b1 && q[..2][..1] == q1;
    assert Dot(b[..2], q[..2]) == Dot(b1, q1) + b[1] * q[1];
  }

  /** Row i of D as a whole: zeros, then 1, -2, 1 from column i, then zeros. */
  lemma SecondDifferenceRow(n: nat, i: nat)
    requires n >= 2 && i < n - 2
    ensures SecondDifference(n)[i] == Zeros(i) + [1.0, -2.0, 1.0] + Zeros(n - i - 3)
  {
    var row, padded := SecondDifference(n)[i], Zeros(i) + [1.0, -2.0, 1.0] + Zeros(n - i - 3);
    forall j | 0 <= j < n ensures row[j] == padded[j] {
      SecondDifferenceEntries(n, i, j);
    }
  }

  /** The dot product of a zero-padded 1, -2, 1 stencil with y. */
  lemma DotStencil(i: nat, m: nat, y: seq<real>)
    requires |y| == i + 3 + m
    ensures Dot(Zeros(i) + [1.0, -2.0, 1.0] + Zeros(m), y) == y[i] - 2.0 * y[i + 1] + y[i + 2]
  {
    var a, b, c := Zeros(i), [1.0, -2.0, 1.0], Zeros(m);
    var p, q, s := y[..i], y[i..i + 3], y[i + 3..];
    assert y[..i + 3] == p + q;
    assert y == y[..i + 3] + s;
    DotConcat(a + b, c, p + q, s);
    DotConcat(a, b, p, q);
    DotZero(a, p);
    DotZero(c, s);
    Dot3(b, q);
  }

  /** D applied to a signal gives its second differences. */
  lemma SecondDifferenceApplied(n: nat, y: seq<real>, i: nat)
    requires n >= 2 && |y| == n && i < n - 2
    ensures Dot(SecondDifference(n)[i], y) == y[i] - 2.0 * y[i + 1] + y[i + 2]
  {
    SecondDifferenceRow(n, i);
    DotStencil(i, n - i - 3, y);
  }

  /** An affine signal (offset + slope * k) is annihilated by D. */
  lemma SecondDifferenceOfAffine(n: nat, offset: real, slope: real)
    requires n >= 2
    ensures forall i :: 0 <= i < n - 2 ==>
      MatVec(SecondDifference(n), Affine(n, offset, slope))[i] == 0.0
  {
    var y := Affine(n, offset, slope);
    forall i | 0 <= i < n - 2 ensures MatVec(SecondDifference(n), y)[i] == 0.0 {
      SecondDifferenceApplied(n, y, i);
      var k := i as real;
      assert y[i] == offset + slope * k && y[i + 1] == offset + slope * (k + 1.0) && y[i + 2] == offset + slope * (k + 2.0);
    }
  }

  function Affine(n: nat, offset: real, slope: real): (y: seq<real>)
    ensures |y| == n
  {
    seq(n, k requires 0 <= k < n => offset + slope * k as real)
  }

  // ---------------------------------------------------------------------
  // Detrending (filter_utils.py:23-57)

  /** numpy.linalg.inv. */
  type Inverse = Matrix -> Matrix

  /** The inverse returned has the shape of its argument. */
  ghost predicate KeepsShape(inv: Inverse)
  {
    forall m: Matrix :: |inv(m)| == |m| && forall i :: 0 <= i < |m| ==> |inv(m)[i]| == |m|
  }

  /** H + Lambda^2 D^T D, the system matrix of the smoothness-priors filter. */
  function DetrendSystem(n: nat, lambda: real): (a: Matrix)
    requires n >= 2
    ensures IsMatrix(a, n, n)
  {
    var d := SecondDifference(n);
    var dtd := MatMul(Transpose(d, n), d, n);
    seq(n, i requires 0 <= i < n => Add(Identity(n)[i], Scale(lambda * lambda, dtd[i])))
  }

  /** detrend(signal, Lambda) = (H - inv(H + Lambda^2 D^T D)) signal; spdiags refuses a signal shorter than 2. */
  function Detrend(signal: seq<real>, lambda: real, inv: Inverse): (r: Result<seq<real>>)
    requires KeepsShape(inv)
    ensures r.Ok? <==> |signal| >= 2
    ensures r.Ok? ==> |r.value| == |signal|
  {
    var n := |signal|;
    if n < 2 then Err("negative dimensions are not allowed")
    else
      var ainv := inv(DetrendSystem(n, lambda));
      var h := Identity(n);
      var filter := seq(n, i requires 0 <= i < n => Sub(h[i], ainv[i]));
      Ok(MatVec(filter, signal))
  }

  /** The detrended signal is the signal minus the trend inv(A) signal. */
  lemma DetrendIsResidual(signal: seq<real>, lambda: real, inv: Inverse)
    requires KeepsShape(inv) && |signal| >= 2
    ensures var n := |signal|; var trend := MatVec(inv(DetrendSystem(n, lambda)), signal);
      Detrend(signal, lambda, inv) == Ok(Sub(signal, trend))
  {
    var n := |signal|;
    var ainv := inv(DetrendSystem(n, lambda));
    var h := Identity(n);
    var trend := MatVec(ainv, signal);
    var got := Detrend(signal, lambda, inv).value;
    forall i | 0 <= i < n ensures got[i] == signal[i] - trend[i] {
      var sub, add := Sub(h[i], ainv[i]), Add(h[i], Scale(-1.0, ainv[i]));
      assert sub == add by {
        forall k | 0 <= k < n ensures sub[k] == add[k] { }
      }
      assert got[i] == Dot(sub, signal);
      DotLinear(h[i], ainv[i], -1.0, signal);
      DotUnit(n, i, signal);
    }
    assert got == Sub(signal, trend);
  }

  /** `ainv` undoes `a` on every vector. */
  ghost predicate IsLeftInverse(ainv: Matrix, a: Matrix, n: nat)
    requires IsMatrix(ainv, n, n) && IsMatrix(a, n, n)
  {
    forall v: seq<real> :: |v| == n ==> MatVec(ainv, MatVec(a, v)) == v
  }

  /** The system matrix leaves an affine signal unchanged: A y = y. */
  lemma SystemFixesAffine(n: nat, lambda: real, offset: real, slope: real)
    requires n >= 2
    ensures MatVec(DetrendSystem(n, lambda), Affine(n, offset, slope)) == Affine(n, offset, slope)
  {
    var y := Affine(n, offset, slope);
    var d := SecondDifference(n);
    var dt := Transpose(d, n);
    var dtd := MatMul(dt, d, n);
    var a := DetrendSystem(n, lambda);
    SecondDifferenceOfAffine(n, offset, slope);
    MatMulAssociates(dt, d, n, y);
    var dy := MatVec(d, y);
    var lhs := MatVec(a, y);
    forall i | 0 <= i < n ensures lhs[i] == y[i] {
      DotZero(dy, dt[i]);
      DotSymmetric(dy, dt[i]);
      assert MatVec(dtd, y)[i] == Dot(dt[i], dy) == 0.0;
      DotLinear(Identity(n)[i], dtd[i], lambda * lambda, y);
      DotUnit(n, i, y);
    }
  }

  /** The detrending filter removes a linear trend completely (the ramp test of the package). */
  lemma DetrendRemovesAffine(n: nat, lambda: real, offset: real, slope: real, inv: Inverse)
    requires n >= 2 && KeepsShape(inv)
    requires IsLeftInverse(inv(DetrendSystem(n, lambda)), DetrendSystem(n, lambda), n)
    ensures Detrend(Affine(n, offset, slope), lambda, inv) == Ok(seq(n, _ => 0.0))
  {
    var y := Affine(n, offset, slope);
    var a := DetrendSystem(n, lambda);
    var ainv := inv(a);
    DetrendIsResidual(y, lambda, inv);
    SystemFixesAffine(n, lambda, offset, slope);
    assert MatVec(ainv, MatVec(a, y)) == y;
    assert Sub(y, MatVec(ainv, y)) == seq(n, _ => 0.0);
  }

  // ---------------------------------------------------------------------
  // Moving average (filter_utils.py:59-82)

  /** x[n - k], or 0 before the signal starts (lfilter's zero initial state). */
  function Past(x: seq<real>, n: nat, k: nat): real
    requires n < |x|
  {
    if k <= n then x[n - k] else 0.0
  }

  /** The output at n of the FIR filter with taps b: sum of b[k] x[n - k]. */
  function FirOutput(b: seq<real>, x: seq<real>, n: nat): real
    requires n < |x|
    decreases |b|
  {
    if |b| == 0 then 0.0 else FirOutput(b[..|b| - 1], x, n) + b[|b| - 1] * Past(x, n, |b| - 1)
  }

  /** scipy.signal.lfilter(b, 1.0, x). */
  function Lfilter(b: seq<real>, x: seq<real>): (y: seq<real>)
    ensures |y| == |x|
  {
    seq(|x|, n requires 0 <= n < |x| => FirOutput(b, x, n))
  }

  /** The taps of the moving average: window_size copies of 1 / window_size. */
  function AverageTaps(w: nat): (b: seq<real>)
    requires w >= 1
    ensures |b| == w
  {
    seq(w, _ => 1.0 / w as real)
  }

  /** average(signal, window_size); 1.0 / window_size raises for a zero window, numpy.zeros for a negative one. */
  function Average(signal: seq<real>, windowSize: int): (r: Result<seq<real>>)
    ensures r.Ok? <==> windowSize >= 1
    ensures r.Ok? ==> |r.value| == |signal|
  {
    if windowSize == 0 then Err("float division by zero")
    else if windowSize < 0 then Err("negative dimensions are not allowed")
    else Ok(Lfilter(AverageTaps(windowSize), signal))
  }

  /** a / d plus x / d, with the second written as the tap 1 / d times x, is their total over d. */
  lemma AddOverDenominator(a: real, x: real, total: real, d: real)
    requires d != 0.0 && total == x + a
    ensures a / d + (1.0 / d) * x == total / d
  {
  }

  /** Tap j - 1 of the average adds 1 / w times the sample j - 1 steps back. */
  lemma AverageTapStep(x: seq<real>, w: nat, j: nat, n: nat)
    requires 1 <= j <= w && n < |x|
    ensures FirOutput(AverageTaps(w)[..j], x, n) == FirOutput(AverageTaps(w)[..j - 1], x, n) + (1.0 / w as real) * Past(x, n, j - 1)
  {
    var b := AverageTaps(w);
    assert b[..j][..j - 1] == b[..j - 1];
  }

  /** Widening the window of the last samples from j - 1 to j adds the sample j - 1 steps back, if there is one. */
  lemma LastSamplesStep(x: seq<real>, j: nat, n: nat)
    requires 1 <= j && n < |x|
    ensures Sum(x[n + 1 - Min(n + 1, j)..n + 1]) == Past(x, n, j - 1) + Sum(x[n + 1 - Min(n + 1, j - 1)..n + 1])
  {
    if j - 1 <= n {
      var lo := n + 1 - j;
      SumFront(x[lo..n + 1]);
      assert x[lo..n + 1][1..] == x[lo + 1..n + 1];
    }
  }

  /** The first j taps of the average contribute 1/w times the last min(n + 1, j) samples. */
  ghost predicate PartialAverageHolds(x: seq<real>, w: nat, j: nat, n: nat)
    requires 1 <= w && j <= w && n < |x|
  {
    FirOutput(AverageTaps(w)[..j], x, n) == Sum(x[n + 1 - Min(n + 1, j)..n + 1]) / w as real
  }

  /** No tap, no sample: both sides are 0. */
  lemma PartialAverageNone(x: seq<real>, w: nat, n: nat)
    requires 1 <= w && n < |x|
    ensures PartialAverageHolds(x, w, 0, n)
  {
    assert x[n + 1..n + 1] == [];
    AddOverDenominator(0.0, 0.0, Sum(x[n + 1 - Min(n + 1, 0)..n + 1]), w as real);
  }

  /** One more tap adds one more sample of the window. */
  lemma PartialAverageNext(x: seq<real>, w: nat, j: nat, n: nat)
    requires 1 <= j <= w && n < |x| && PartialAverageHolds(x, w, j - 1, n)
    ensures PartialAverageHolds(x, w, j, n)
  {
    var previous := j - 1;
    AverageTapStep(x, w, j, n);
    LastSamplesStep(x, j, n);
    AddOverDenominator(Sum(x[n + 1 - Min(n + 1, previous)..n + 1]), Past(x, n, previous), Sum(x[n + 1 - Min(n + 1, j)..n + 1]), w as real);
  }

  /** By induction on the number of taps j. */
  lemma {:induction false} PartialAverage(x: seq<real>, w: nat, j: nat, n: nat)
    requires 1 <= w && j <= w && n < |x|
    ensures FirOutput(AverageTaps(w)[..j], x, n) == Sum(x[n + 1 - Min(n + 1, j)..n + 1]) / w as real
  {
    if j == 0 {
      PartialAverageNone(x, w, n);
    } else {
      PartialAverage(x, w, j - 1, n);
      PartialAverageNext(x, w, j, n);
    }
  }

  /** The moving average at n is the mean of the last window_size samples, fewer at the start. */
  lemma AverageIsWindowMean(x: seq<real>, w: nat, n: nat)
    requires 1 <= w && n < |x|
    ensures Average(x, w).Ok?
    ensures Average(x, w).value[n] == Sum(x[n + 1 - Min(n + 1, w)..n + 1]) / w as real
  {
    PartialAverage(x, w, w, n);
    assert AverageTaps(w)[..w] == AverageTaps(w);
  }

  /** A window of one sample leaves the signal unchanged. */
  lemma AverageOfOneIsIdentity(x: seq<real>)
    ensures Average(x, 1) == Ok(x)
  {
    forall n | 0 <= n < |x| ensures Average(x, 1).value[n] == x[n] {
      AverageIsWindowMean(x, 1, n);
      assert x[n..n + 1] == [x[n]];
      assert [x[n]][..0] == [];
    }
    assert Average(x, 1).value == x;
  }

  /** On a constant signal the average ramps up over the first window and then equals the constant. */
  lemma AverageOfConstant(x: seq<real>, v: real, w: nat, n: nat)
    requires 1 <= w && n < |x|
    requires forall k :: 0 <= k < |x| ==> x[k] == v
    ensures Average(x, w).value[n] == Min(n + 1, w) as real * v / w as real
    ensures n + 1 >= w ==> Average(x, w).value[n] == v
  {
    AverageIsWindowMean(x, w, n);
    SumConstant(x[n + 1 - Min(n + 1, w)..n + 1], v);
  }
}
