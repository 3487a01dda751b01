/*
 * bob/rppg/ssr/ssr_utils.py: the Spatial Subspace Rotation algorithm
 * (2SR, Wang et al. 2015).  Each frame's skin pixels give a 3 x 3
 * correlation matrix whose eigenvectors, sorted by decreasing eigenvalue,
 * span the skin-colour subspace; the rotation of that subspace over a
 * window of temporal_stride frames gives a chunk of the pulse signal.
 *
 * numpy.linalg.eig, numpy.sqrt and numpy.std are parameters; the skin
 * filter's mask is an input.
 */
module SsrUtils {
  import opened Numerics
  import opened BaseUtils
  import opened FilterUtils

  // ---------------------------------------------------------------------
  // get_skin_pixels (ssr_utils.py:28-86)

  /** face[:, skin_mask] as float64 divided by 255: one row per colour channel, one column per skin pixel. */
  function SkinPixels(face: Image, skinMask: Mask): (pixels: Matrix)
    requires |face| == 3
    requires forall c :: 0 <= c < 3 ==> |face[c]| == |skinMask| && forall i :: 0 <= i < |skinMask| ==> |face[c][i]| == |skinMask[i]|
    ensures IsMatrix(pixels, 3, CountTrue(skinMask))
  {
    SelectCount(face[0], skinMask);
    SelectCount(face[1], skinMask);
    SelectCount(face[2], skinMask);
    seq(3, c requires 0 <= c < 3 =>
      var selected := Reals(Select(face[c], skinMask));
      seq(|selected|, k requires 0 <= k < |selected| => selected[k] / 255.0))
  }

  /** Every skin pixel value of a uint8 frame ends up in [0, 1]. */
  lemma {:induction false} SkinPixelsInUnitRange(face: Image, skinMask: Mask, c: nat, k: nat)
    requires |face| == 3
    requires forall c :: 0 <= c < 3 ==> |face[c]| == |skinMask| && forall i :: 0 <= i < |skinMask| ==> |face[c][i]| == |skinMask[i]|
    requires forall c, i, j :: 0 <= c < 3 && 0 <= i < |face[c]| && 0 <= j < |face[c][i]| ==> 0 <= face[c][i][j] < 256
    requires c < 3 && k < CountTrue(skinMask)
    ensures 0.0 <= SkinPixels(face, skinMask)[c][k] <= 1.0
  {
    SelectCount(face[c], skinMask);
    SelectBounded(face[c], skinMask);
  }

  lemma {:induction false} SelectRowBounded(row: seq<int>, m: seq<bool>)
    requires |row| == |m| && forall k :: 0 <= k < |row| ==> 0 <= row[k] < 256
    ensures forall k :: 0 <= k < |SelectRow(row, m)| ==> 0 <= SelectRow(row, m)[k] < 256
    decreases |m|
  {
    if |m| > 0 {
      SelectRowBounded(row[..|m| - 1], m[..|m| - 1]);
    }
  }

  /** Selecting uint8 values yields uint8 values. */
  lemma {:induction false} SelectBounded(channel: seq<seq<int>>, mask: Mask)
    requires |channel| == |mask| && forall i :: 0 <= i < |mask| ==> |channel[i]| == |mask[i]|
    requires forall i, j :: 0 <= i < |channel| && 0 <= j < |channel[i]| ==> 0 <= channel[i][j] < 256
    ensures forall k :: 0 <= k < |Select(channel, mask)| ==> 0 <= Select(channel, mask)[k] < 256
    decreases |mask|
  {
    if |mask| > 0 {
      var n := |mask| - 1;
      SelectBounded(channel[..n], mask[..n]);
      SelectRowBounded(channel[n], mask[n]);
    }
  }

  // ---------------------------------------------------------------------
  // get_eigen (ssr_utils.py:88-116)

  /** C = P P^T / n for the d x n matrix P of skin pixels; numpy produces NaN for n = 0 and eig then raises. */
  function Correlation(pixels: Matrix, n: nat): (c: Result<Matrix>)
    requires IsMatrix(pixels, |pixels|, n)
    ensures c.Ok? <==> n > 0
    ensures c.Ok? ==> IsMatrix(c.value, |pixels|, |pixels|)
    ensures c.Ok? ==> forall i, j :: 0 <= i < |pixels| && 0 <= j < |pixels| ==>
      c.value[i][j] * n as real == Dot(pixels[i], pixels[j])
  {
    var d := |pixels|;
    if n == 0 then Err("Array must not contain infs or NaNs")
    else Ok(seq(d, i requires 0 <= i < d => seq(d, j requires 0 <= j < d => Dot(pixels[i], pixels[j]) / n as real)))
  }

  /** The correlation matrix is symmetric and has a non-negative diagonal. */
  lemma {:induction false} CorrelationSymmetric(pixels: Matrix, n: nat, i: nat, j: nat)
    requires IsMatrix(pixels, |pixels|, n)
    requires Correlation(pixels, n).Ok? && i < |pixels| && j < |pixels|
    ensures Correlation(pixels, n).value[i][j] == Correlation(pixels, n).value[j][i]
    ensures Correlation(pixels, n).value[i][i] >= 0.0
  {
    DotSymmetric(pixels[i], pixels[j]);
    DotSelfNonNegative(pixels[i]);
  }

  /** numpy.linalg.eig's eigenvalues and eigenvectors (the eigenvectors are the columns of `vectors`). */
  datatype Eigen = Eigen(values: seq<real>, vectors: Matrix)

  /** An n x n eigen-decomposition. */
  predicate EigenShape(e: Eigen, n: nat)
  {
    |e.values| == n && IsMatrix(e.vectors, n, n)
  }

  /** numpy.linalg.eig. */
  type Eig = Matrix -> Eigen

  /**
   * numpy.linalg.eig's answer on the d x d matrix c, which numpy always
   * gives as d eigenvalues and a d x d eigenvector matrix; an oracle answer
   * of any other shape is read as the zero decomposition.
   */
  function Decompose(eig: Eig, c: Matrix): (e: Eigen)
    ensures EigenShape(e, |c|)
    ensures EigenShape(eig(c), |c|) ==> e == eig(c)
  {
    var e := eig(c);
    if EigenShape(e, |c|) then e else Eigen(seq(|c|, _ => 0.0), seq(|c|, _ => seq(|c|, _ => 0.0)))
  }

  /** Index i sorts before index j in argsort()[::-1]: a larger value, or an equal value at a larger index. */
  predicate Before(v: seq<real>, i: nat, j: nat)
    requires i < |v| && j < |v|
  {
    v[i] > v[j] || (v[i] == v[j] && i > j)
  }

  ghost predicate Descending(v: seq<real>, s: seq<nat>)
  {
    (forall k :: 0 <= k < |s| ==> s[k] < |v|) &&
    forall a, b :: 0 <= a < b < |s| ==> Before(v, s[a], s[b])
  }

  /** Inserting index i into an index list kept in that order. */
  function Insert(v: seq<real>, i: nat, s: seq<nat>): (r: seq<nat>)
    requires i < |v| && forall k :: 0 <= k < |s| ==> s[k] < |v|
    ensures |r| == |s| + 1 && forall k :: 0 <= k < |r| ==> r[k] < |v|
    ensures forall k :: 0 <= k < |r| ==> r[k] == i || r[k] in s
    ensures multiset(r) == multiset(s) + multiset{i}
    decreases |s|
  {
    if |s| == 0 then [i]
    else if Before(v, i, s[0]) then [i] + s
    else
      assert s == [s[0]] + s[1..];
      [s[0]] + Insert(v, i, s[1..])
  }

  /** argsort()[::-1] of the first n values: numpy sorts these short arrays stably, and the reversal puts ties last-index first. */
  function ArgsortDesc(v: seq<real>, n: nat): (idx: seq<nat>)
    requires n <= |v|
    ensures |idx| == n && forall k :: 0 <= k < n ==> idx[k] < n
    ensures multiset(idx) == multiset(Range(n))
  {
    if n == 0 then []
    else
      RangeSplit(n);
      Insert(v, n - 1, ArgsortDesc(v, n - 1))
  }

  /** [0, 1, ..., n - 1]. */
  function Range(n: nat): (r: seq<nat>)
    ensures |r| == n && forall k :: 0 <= k < n ==> r[k] == k
  {
    seq(n, k requires 0 <= k < n => k)
  }

  lemma {:induction false} RangeSplit(n: nat)
    requires n > 0
    ensures Range(n) == Range(n - 1) + [n - 1]
  {
  }

  /** Insertion keeps an index list in order, provided i is distinct from its entries. */
  lemma {:induction false} InsertDescending(v: seq<real>, i: nat, s: seq<nat>)
    requires i < |v| && Descending(v, s) && i !in s
    ensures Descending(v, Insert(v, i, s))
    decreases |s|
  {
    if |s| > 0 && !Before(v, i, s[0]) {
      var tail := s[1..];
      assert s == [s[0]] + tail;
      assert Descending(v, tail) by {
        forall a, b | 0 <= a < b < |tail| ensures Before(v, tail[a], tail[b]) {
          assert tail[a] == s[a + 1] && tail[b] == s[b + 1];
        }
      }
      InsertDescending(v, i, tail);
      var t := Insert(v, i, tail);
      forall b | 0 <= b < |t| ensures Before(v, s[0], t[b]) {
        if t[b] != i {
          var c :| 0 <= c < |tail| && tail[c] == t[b];
          assert Before(v, s[0], s[c + 1]);
        }
      }
    }
  }

  /** The eigen-order is a strict descending order of (value, index). */
  lemma {:induction false} ArgsortDescending(v: seq<real>, n: nat)
    requires n <= |v|
    ensures Descending(v, ArgsortDesc(v, n))
  {
    if n > 0 {
      var previous := ArgsortDesc(v, n - 1);
      ArgsortDescending(v, n - 1);
      assert n - 1 !in previous;
      InsertDescending(v, n - 1, previous);
      assert ArgsortDesc(v, n) == Insert(v, n - 1, previous);
    }
  }

  /** The eigen-decomposition with everything reordered by idx: values[idx] and vectors[:, idx]. */
  function Reorder(e: Eigen, idx: seq<nat>): (r: Eigen)
    requires forall k :: 0 <= k < |idx| ==> idx[k] < |e.values|
    requires IsMatrix(e.vectors, |e.vectors|, |e.values|)
    ensures |r.values| == |idx| && IsMatrix(r.vectors, |e.vectors|, |idx|)
    ensures forall k :: 0 <= k < |idx| ==> r.values[k] == e.values[idx[k]]
    ensures forall row, k :: 0 <= row < |e.vectors| && 0 <= k < |idx| ==> r.vectors[row][k] == e.vectors[row][idx[k]]
  {
    Eigen(seq(|idx|, k requires 0 <= k < |idx| => e.values[idx[k]]),
          seq(|e.vectors|, row requires 0 <= row < |e.vectors| =>
            seq(|idx|, k requires 0 <= k < |idx| => e.vectors[row][idx[k]])))
  }

  /** get_eigen: the correlation matrix's eigenvalues, largest first, and the eigenvectors in the same order. */
  function GetEigen(pixels: Matrix, n: nat, eig: Eig): (r: Result<Eigen>)
    requires IsMatrix(pixels, |pixels|, n)
    ensures r.Ok? <==> n > 0
    ensures r.Ok? ==> EigenShape(r.value, |pixels|)
  {
    match Correlation(pixels, n)
    case Err(e) => Err(e)
    case Ok(c) =>
      var e := Decompose(eig, c);
      Ok(Reorder(e, ArgsortDesc(e.values, |pixels|)))
  }

  /** Reordering a d x d decomposition by ArgsortDesc sorts it by decreasing eigenvalue. */
  lemma {:induction false} SortByEigenvalue(e: Eigen, d: nat)
    requires EigenShape(e, d)
    ensures multiset(ArgsortDesc(e.values, d)) == multiset(Range(d))
    ensures forall a, b :: 0 <= a < b < d ==> Before(e.values, ArgsortDesc(e.values, d)[a], ArgsortDesc(e.values, d)[b])
    ensures forall a, b :: 0 <= a < b < d ==> Reorder(e, ArgsortDesc(e.values, d)).values[a] >= Reorder(e, ArgsortDesc(e.values, d)).values[b]
  {
    var idx := ArgsortDesc(e.values, d);
    ArgsortDescending(e.values, d);
    var s := Reorder(e, idx);
    forall a, b | 0 <= a < b < d ensures s.values[a] >= s.values[b] {
      assert Before(e.values, idx[a], idx[b]);
    }
  }

  /**
   * get_eigen's result is the decomposition of C reordered by a permutation
   * of 0 .. d - 1 that sorts the eigenvalues into non-increasing order (ties
   * broken towards the later index); position k holds the eigenvalue and the
   * eigenvector column that numpy returned at idx[k] (Reorder's contract).
   */
  lemma {:induction false} GetEigenSorted(pixels: Matrix, n: nat, eig: Eig)
    requires IsMatrix(pixels, |pixels|, n) && n > 0
    ensures var e := Decompose(eig, Correlation(pixels, n).value);
      GetEigen(pixels, n, eig).value == Reorder(e, ArgsortDesc(e.values, |pixels|)) &&
      multiset(ArgsortDesc(e.values, |pixels|)) == multiset(Range(|pixels|))
    ensures forall a, b :: 0 <= a < b < |pixels| ==> GetEigen(pixels, n, eig).value.values[a] >= GetEigen(pixels, n, eig).value.values[b]
  {
    var e := Decompose(eig, Correlation(pixels, n).value);
    SortByEigenvalue(e, |pixels|);
  }

  /** Equal eigenvalues come out in reverse index order. */
  lemma {:induction false} ArgsortTies(x: real)
    ensures ArgsortDesc([x, x], 2) == [1, 0]
  {
  }

  /**
   * The get_eigen test's ordering: numpy's eig returns the eigenvalues
   * [x, x] with the identity's columns for a multiple of the identity, and
   * the tie order swaps those columns.
   */
  lemma {:induction false} SortSwapsTiedColumns(x: real)
    ensures var e := Eigen([x, x], [[1.0, 0.0], [0.0, 1.0]]);
      var r := Reorder(e, ArgsortDesc(e.values, 2));
      r.values == [x, x] && forall row, k :: 0 <= row < 2 && 0 <= k < 2 ==> r.vectors[row][k] == if row == k then 0.0 else 1.0
  {
    ArgsortTies(x);
  }

  /** The get_eigen test's input: zero skin pixels give the zero correlation matrix. */
  lemma {:induction false} CorrelationOfZeroPixels()
    ensures Correlation([[0.0, 0.0], [0.0, 0.0]], 2) == Ok([[0.0, 0.0], [0.0, 0.0]])
  {
    var p := [[0.0, 0.0], [0.0, 0.0]];
    DotZero(p[0], p[0]);
    ZeroMatrix(Correlation(p, 2).value);
  }

  /** A 2 x 2 correlation matrix of zero pixels is the zero matrix. */
  lemma {:induction false} ZeroMatrix(c: Matrix)
    requires IsMatrix(c, 2, 2) && forall i, j :: 0 <= i < 2 && 0 <= j < 2 ==> c[i][j] * 2 as real == 0.0
    ensures c == [[0.0, 0.0], [0.0, 0.0]]
  {
    assert c[0] == [c[0][0], c[0][1]] && c[1] == [c[1][0], c[1][1]];
    assert c == [c[0], c[1]];
  }

  // ---------------------------------------------------------------------
  // build_P (ssr_utils.py:142-192)

  /** numpy.outer(a, b). */
  function Outer(a: seq<real>, b: seq<real>): (m: Matrix)
    ensures IsMatrix(m, |a|, |b|)
  {
    seq(|a|, i requires 0 <= i < |a| => seq(|b|, j requires 0 <= j < |b| => a[i] * b[j]))
  }

  /** Column k of an eigenvector matrix. */
  function Vec(e: Eigen, k: nat): (v: seq<real>)
    requires EigenShape(e, 3) && k < 3
    ensures |v| == 3
  {
    Column(e.vectors, k)
  }

  /** The eigen data that build_P reads: three eigenvalues and a 3 x 3 eigenvector matrix per frame from tau to counter - 1. */
  ghost predicate Shaped(eigen: seq<Eigen>, lo: int, hi: int)
  {
    0 <= lo <= hi <= |eigen| && forall t :: lo <= t < hi ==> EigenShape(eigen[t], 3)
  }

  /**
   * Equation 11 of the 2SR paper for frame et against the reference frame
   * er: the principal eigenvector u of et multiplied by the outer products
   * of the reference frame's second and third eigenvectors, each term scaled
   * by the square root of an eigenvalue ratio.  OuterProjection shows that
   * each term is u's component along that axis.
   */
  function SrPrime(et: Eigen, er: Eigen, sqrt: real -> real): (s: seq<real>)
    requires EigenShape(et, 3) && EigenShape(er, 3)
    ensures |s| == 3
  {
    var u, v1, v2 := Vec(et, 0), Vec(er, 1), Vec(er, 2);
    Add(Scale(sqrt(Quot(et.values[0], er.values[1])), VecMat(u, Outer(v1, v1), 3)),
        Scale(sqrt(Quot(et.values[0], er.values[2])), VecMat(u, Outer(v2, v2), 3)))
  }

  /** The dot product of column 0 of et's eigenvectors with column k of er's: u . v_k. */
  function Along(et: Eigen, er: Eigen, k: nat): real
    requires EigenShape(et, 3) && EigenShape(er, 3) && k < 3
  {
    et.vectors[0][0] * er.vectors[0][k] + et.vectors[1][0] * er.vectors[1][k] + et.vectors[2][0] * er.vectors[2][k]
  }

  /**
   * Equation 11 with each outer-product term written as u's component along
   * that axis, entry by entry: the form the pulse is built from, equal to
   * SrPrime by SrPrimeProjection.
   */
  function SrPrimeProjected(et: Eigen, er: Eigen, sqrt: real -> real): (s: seq<real>)
    requires EigenShape(et, 3) && EigenShape(er, 3)
    ensures |s| == 3
  {
    var c1, d1 := sqrt(Quot(et.values[0], er.values[1])), Along(et, er, 1);
    var c2, d2 := sqrt(Quot(et.values[0], er.values[2])), Along(et, er, 2);
    [c1 * (d1 * er.vectors[0][1]) + c2 * (d2 * er.vectors[0][2]),
     c1 * (d1 * er.vectors[1][1]) + c2 * (d2 * er.vectors[1][2]),
     c1 * (d1 * er.vectors[2][1]) + c2 * (d2 * er.vectors[2][2])]
  }

  /** Equation 11 as written and its projected form agree. */
  lemma {:induction false} SrPrimeProjection(et: Eigen, er: Eigen, sqrt: real -> real)
    requires EigenShape(et, 3) && EigenShape(er, 3)
    ensures SrPrime(et, er, sqrt) == SrPrimeProjected(et, er, sqrt)
  {
    var lhs, rhs := SrPrime(et, er, sqrt), SrPrimeProjected(et, er, sqrt);
    forall k | 0 <= k < 3 ensures lhs[k] == rhs[k] {
      SrPrimeEntry(et, er, sqrt, k);
    }
  }

  /** Entry k of equation 11: each outer-product term is u's component along that axis times the axis. */
  lemma {:induction false} SrPrimeEntry(et: Eigen, er: Eigen, sqrt: real -> real, k: nat)
    requires EigenShape(et, 3) && EigenShape(er, 3) && k < 3
    ensures SrPrime(et, er, sqrt)[k] == SrPrimeProjected(et, er, sqrt)[k]
  {
    SrPrimeAsWritten(et, er, sqrt, k);
    ProjectedEntry(et, er, sqrt, k);
    AlongDot(et, er, 1);
    AlongDot(et, er, 2);
  }

  /** Entry k of equation 11 as written, once each outer product is applied to u. */
  lemma {:induction false} SrPrimeAsWritten(et: Eigen, er: Eigen, sqrt: real -> real, k: nat)
    requires EigenShape(et, 3) && EigenShape(er, 3) && k < 3
    ensures SrPrime(et, er, sqrt)[k] ==
      sqrt(Quot(et.values[0], er.values[1])) * (Dot(Vec(et, 0), Vec(er, 1)) * er.vectors[k][1]) +
      sqrt(Quot(et.values[0], er.values[2])) * (Dot(Vec(et, 0), Vec(er, 2)) * er.vectors[k][2])
  {
    var u, v1, v2 := Vec(et, 0), Vec(er, 1), Vec(er, 2);
    SrPrimeTerms(et, er, sqrt, k);
    ProjectionOnAxis(u, v1, k);
    ProjectionOnAxis(u, v2, k);
  }

  /** Entry k of equation 11 is the sum of the two scaled entries u^T (v v^T) [k]. */
  lemma SrPrimeTerms(et: Eigen, er: Eigen, sqrt: real -> real, k: nat)
    requires EigenShape(et, 3) && EigenShape(er, 3) && k < 3
    ensures SrPrime(et, er, sqrt)[k] ==
      sqrt(Quot(et.values[0], er.values[1])) * VecMat(Vec(et, 0), Outer(Vec(er, 1), Vec(er, 1)), 3)[k] +
      sqrt(Quot(et.values[0], er.values[2])) * VecMat(Vec(et, 0), Outer(Vec(er, 2), Vec(er, 2)), 3)[k]
  {
  }

  /** Entry k of the projected form. */
  lemma {:induction false} ProjectedEntry(et: Eigen, er: Eigen, sqrt: real -> real, k: nat)
    requires EigenShape(et, 3) && EigenShape(er, 3) && k < 3
    ensures SrPrimeProjected(et, er, sqrt)[k] ==
      sqrt(Quot(et.values[0], er.values[1])) * (Along(et, er, 1) * er.vectors[k][1]) +
      sqrt(Quot(et.values[0], er.values[2])) * (Along(et, er, 2) * er.vectors[k][2])
  {
    if k == 0 {} else if k == 1 {} else {}
  }

  /** Along is the dot product of the two columns. */
  lemma {:induction false} AlongDot(et: Eigen, er: Eigen, k: nat)
    requires EigenShape(et, 3) && EigenShape(er, 3) && k < 3
    ensures Dot(Vec(et, 0), Vec(er, k)) == Along(et, er, k)
  {
    Dot3(Vec(et, 0), Vec(er, k));
  }

  /** u^T (a a^T) = (u . a) a. */
  lemma {:induction false} OuterProjection(u: seq<real>, a: seq<real>)
    requires |u| == |a|
    ensures VecMat(u, Outer(a, a), |a|) == Scale(Dot(u, a), a)
  {
    var lhs, rhs := VecMat(u, Outer(a, a), |a|), Scale(Dot(u, a), a);
    forall k | 0 <= k < |a| ensures lhs[k] == rhs[k] {
      ProjectionOnAxis(u, a, k);
    }
  }

  /** Entry k of u^T (a a^T) is (u . a) a[k]. */
  lemma {:induction false} ProjectionOnAxis(u: seq<real>, a: seq<real>, k: nat)
    requires |u| == |a| && k < |a|
    ensures VecMat(u, Outer(a, a), |u|)[k] == Dot(u, a) * a[k]
  {
    OuterColumn(a, k);
    ProjectionEntry(u, a, k);
  }

  /** Column j of a a^T is a scaled by a[j]. */
  lemma {:induction false} OuterColumn(a: seq<real>, j: nat)
    requires j < |a|
    ensures Column(Outer(a, a), j) == Scale(a[j], a)
  {
    var col, scaled := Column(Outer(a, a), j), Scale(a[j], a);
    forall i | 0 <= i < |a| ensures col[i] == scaled[i] {
      assert col[i] == Outer(a, a)[i][j] == a[i] * a[j];
    }
  }

  lemma {:induction false} ProjectionEntry(u: seq<real>, a: seq<real>, j: nat)
    requires |u| == |a| && j < |a|
    ensures Dot(u, Scale(a[j], a)) == Dot(u, a) * a[j]
  {
    DotScaleRight(u, a[j], a);
  }

  /** Scaling the right operand of a dot product scales the product. */
  lemma {:induction false} DotScaleRight(u: seq<real>, c: real, a: seq<real>)
    requires |u| == |a|
    ensures Dot(u, Scale(c, a)) == Dot(u, a) * c
  {
    DotSymmetric(u, Scale(c, a));
    DotScale(c, a, u);
    DotSymmetric(a, u);
  }

  /** Row `row` of sr_prime_vec: that component of SR' for the frames tau .. tau + stride - 1 against frame tau. */
  function SrRow(eigen: seq<Eigen>, tau: nat, stride: nat, row: nat, sqrt: real -> real): (s: seq<real>)
    requires Shaped(eigen, tau, tau + stride) && row < 3
    ensures |s| == stride
    decreases stride
  {
    if stride == 0 then []
    else SrRow(eigen, tau, stride - 1, row, sqrt) + [SrColumn(eigen, tau, stride - 1, sqrt)[row]]
  }

  /** Entry c of row `row` of sr_prime_vec is component `row` of SR' of frame tau + c. */
  lemma {:induction false} SrRowEntry(eigen: seq<Eigen>, tau: nat, stride: nat, row: nat, sqrt: real -> real, c: nat)
    requires Shaped(eigen, tau, tau + stride) && row < 3 && c < stride
    ensures SrRow(eigen, tau, stride, row, sqrt)[c] == SrColumn(eigen, tau, c, sqrt)[row]
    decreases stride
  {
    if c < stride - 1 {
      SrRowEntry(eigen, tau, stride - 1, row, sqrt, c);
    }
  }

  /** Column c of sr_prime_vec: SR' of frame tau + c against frame tau. */
  function SrColumn(eigen: seq<Eigen>, tau: nat, c: nat, sqrt: real -> real): (s: seq<real>)
    requires tau + c < |eigen| && EigenShape(eigen[tau], 3) && EigenShape(eigen[tau + c], 3)
    ensures |s| == 3
  {
    SrPrimeProjected(eigen[tau + c], eigen[tau], sqrt)
  }

  /** Equations 12 and 13: p = SR'_0 - (std(SR'_0) / std(SR'_1)) SR'_1. */
  function PSignal(eigen: seq<Eigen>, counter: nat, stride: nat, sqrt: real -> real, std: StdDev): (p: seq<real>)
    requires stride <= counter && Shaped(eigen, counter - stride, counter)
    ensures |p| == stride
  {
    var tau := counter - stride;
    var r0, r1 := SrRow(eigen, tau, stride, 0, sqrt), SrRow(eigen, tau, stride, 1, sqrt);
    Sub(r0, Scale(Quot(std(r0), std(r1)), r1))
  }

  /** build_P: fills sr_prime_vec column by column, then combines its first two rows. */
  method BuildP(counter: nat, stride: nat, eigen: seq<Eigen>, sqrt: real -> real, std: StdDev) returns (p: seq<real>)
    requires stride <= counter && Shaped(eigen, counter - stride, counter)
    ensures p == PSignal(eigen, counter, stride, sqrt, std)
  {
    var tau := counter - stride;
    var srPrimeVec := FillSrPrime(counter, stride, eigen, sqrt);
    var r0, r1 := RowOf(srPrimeVec, 0), RowOf(srPrimeVec, 1);
    assert FilledUpTo(srPrimeVec, eigen, tau, stride, sqrt, stride);
    assert r0 == SrRow(eigen, tau, stride, 0, sqrt);
    assert r1 == SrRow(eigen, tau, stride, 1, sqrt);
    p := Sub(r0, Scale(Quot(std(r0), std(r1)), r1));
  }

  /** sr_prime_vec[row, :]. */
  function RowOf(m: array2<real>, row: nat): (r: seq<real>)
    requires row < m.Length0
    reads m
    ensures |r| == m.Length1 && forall c :: 0 <= c < m.Length1 ==> r[c] == m[row, c]
  {
    seq(m.Length1, c requires 0 <= c < m.Length1 reads m => m[row, c])
  }

  /** The first n columns of sr_prime_vec hold SR' of the frames tau .. tau + n - 1. */
  ghost predicate FilledUpTo(m: array2<real>, eigen: seq<Eigen>, tau: nat, stride: nat, sqrt: real -> real, n: nat)
    reads m
  {
    Shaped(eigen, tau, tau + stride) && m.Length0 == 3 && m.Length1 == stride && n <= stride &&
    forall row, c :: 0 <= row < 3 && 0 <= c < n ==> m[row, c] == SrRow(eigen, tau, stride, row, sqrt)[c]
  }

  /** The loop of build_P: column c2 of sr_prime_vec receives SR' of frame t = tau + c2. */
  method FillSrPrime(counter: nat, stride: nat, eigen: seq<Eigen>, sqrt: real -> real) returns (srPrimeVec: array2<real>)
    requires stride <= counter && Shaped(eigen, counter - stride, counter)
    ensures fresh(srPrimeVec) && FilledUpTo(srPrimeVec, eigen, counter - stride, stride, sqrt, stride)
  {
    var tau := counter - stride;
    srPrimeVec := new real[3, stride]((_, _) => 0.0);
    var c2 := 0;
    for t := tau to counter
      invariant c2 == t - tau
      invariant FilledUpTo(srPrimeVec, eigen, tau, stride, sqrt, c2)
    {
      FillColumn(srPrimeVec, eigen, tau, stride, sqrt, c2);
      c2 := c2 + 1;
    }
  }

  /** One pass of build_P's loop: sr_prime_vec[:, c2] = SR' of frame tau + c2. */
  method FillColumn(m: array2<real>, eigen: seq<Eigen>, tau: nat, stride: nat, sqrt: real -> real, c2: nat)
    requires FilledUpTo(m, eigen, tau, stride, sqrt, c2) && c2 < stride
    modifies m
    ensures FilledUpTo(m, eigen, tau, stride, sqrt, c2 + 1)
  {
    var srPrime := SrPrime(eigen[tau + c2], eigen[tau], sqrt);
    SrPrimeProjection(eigen[tau + c2], eigen[tau], sqrt);
    StoreColumn(m, c2, srPrime);
    SrRowEntry(eigen, tau, stride, 0, sqrt, c2);
    SrRowEntry(eigen, tau, stride, 1, sqrt, c2);
    SrRowEntry(eigen, tau, stride, 2, sqrt, c2);
  }

  /** sr_prime_vec[:, c] = v. */
  method StoreColumn(m: array2<real>, c: nat, v: seq<real>)
    requires m.Length0 == |v| == 3 && c < m.Length1
    modifies m
    ensures forall row, j :: 0 <= row < 3 && 0 <= j < m.Length1 ==> m[row, j] == if j == c then v[row] else old(m[row, j])
  {
    m[0, c], m[1, c], m[2, c] := v[0], v[1], v[2];
  }

  /** build_P reads the eigen data of the frames tau .. counter - 1 only. */
  lemma {:induction false} PSignalReadsWindow(e1: seq<Eigen>, e2: seq<Eigen>, counter: nat, stride: nat, sqrt: real -> real, std: StdDev)
    requires stride <= counter && Shaped(e1, counter - stride, counter) && Shaped(e2, counter - stride, counter)
    requires forall t :: counter - stride <= t < counter ==> e1[t] == e2[t]
    ensures PSignal(e1, counter, stride, sqrt, std) == PSignal(e2, counter, stride, sqrt, std)
  {
    var tau := counter - stride;
    forall row | 0 <= row < 3 ensures SrRow(e1, tau, stride, row, sqrt) == SrRow(e2, tau, stride, row, sqrt) {
      forall c | 0 <= c < stride ensures SrRow(e1, tau, stride, row, sqrt)[c] == SrRow(e2, tau, stride, row, sqrt)[c] {
        assert e1[tau + c] == e2[tau + c] && e1[tau] == e2[tau];
        SrRowEntry(e1, tau, stride, row, sqrt, c);
        SrRowEntry(e2, tau, stride, row, sqrt, c);
      }
    }
  }

  /**
   * p removes from SR'_0, sample by sample, the multiple of SR'_1 given by
   * the ratio of their spreads; with no spread in SR'_1 numpy divides by zero,
   * which the model takes as no correction.
   */
  lemma {:induction false} PSignalFlatSecondRow(eigen: seq<Eigen>, counter: nat, stride: nat, sqrt: real -> real, std: StdDev)
    requires stride <= counter && Shaped(eigen, counter - stride, counter)
    requires std(SrRow(eigen, counter - stride, stride, 1, sqrt)) == 0.0
    ensures PSignal(eigen, counter, stride, sqrt, std) == SrRow(eigen, counter - stride, stride, 0, sqrt)
  {
    var p, r0 := PSignal(eigen, counter, stride, sqrt, std), SrRow(eigen, counter - stride, stride, 0, sqrt);
    forall c | 0 <= c < stride ensures p[c] == r0[c] {
    }
  }
}
