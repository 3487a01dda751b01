/*
 * Numerical vocabulary shared by the rPPG model: optional values and
 * results for the exceptions the Python code raises, sums and means over
 * real-valued signals, dot products, and Python's integer conversions.
 *
 * Floating-point numbers are modelled as exact reals.  NaN (the mean of an
 * empty selection) is modelled as Option.None; a division whose divisor can
 * be zero in the source goes through Quot, which yields 0 there.
 */
module Numerics {

  datatype Option<T> = None | Some(value: T)

  /** Outcome of an operation that can raise: Err carries the exception's message. */
  datatype Result<T> = Ok(value: T) | Err(reason: string)

  // ---------------------------------------------------------------------
  // Sums, means, vectors

  /** numpy.sum of a one-dimensional real array. */
  function Sum(s: seq<real>): real
    decreases |s|
  {
    if |s| == 0 then 0.0 else Sum(s[..|s| - 1]) + s[|s| - 1]
  }

  lemma {:induction false} SumConcat(a: seq<real>, b: seq<real>)
    ensures Sum(a + b) == Sum(a) + Sum(b)
    decreases |b|
  {
    if |b| == 0 {
      assert a + b == a;
    } else {
      assert (a + b)[..|a + b| - 1] == a + b[..|b| - 1];
      SumConcat(a, b[..|b| - 1]);
    }
  }

  lemma {:induction false} SumFront(s: seq<real>)
    requires |s| > 0
    ensures Sum(s) == s[0] + Sum(s[1..])
  {
    assert s == [s[0]] + s[1..];
    SumConcat([s[0]], s[1..]);
    assert [s[0]][..0] == [];
  }

  /** A constant signal sums to its length times the constant. */
  lemma {:induction false} SumConstant(s: seq<real>, v: real)
    requires forall k :: 0 <= k < |s| ==> s[k] == v
    ensures Sum(s) == |s| as real * v
    decreases |s|
  {
    if |s| > 0 {
      SumConstant(s[..|s| - 1], v);
    }
  }

  /** A non-negative signal has a non-negative sum. */
  lemma {:induction false} SumNonNegative(s: seq<real>)
    requires forall k :: 0 <= k < |s| ==> s[k] >= 0.0
    ensures Sum(s) >= 0.0
    decreases |s|
  {
    if |s| > 0 {
      SumNonNegative(s[..|s| - 1]);
    }
  }

  /** numpy.mean; the mean of nothing is NaN, modelled as None. */
  function Mean(s: seq<real>): (m: Option<real>)
    ensures m.None? <==> |s| == 0
    ensures m.Some? ==> m.value * |s| as real == Sum(s)
  {
    if |s| == 0 then None else Some(Sum(s) / |s| as real)
  }

  /** The mean of a constant, non-empty signal is that constant. */
  lemma MeanConstant(s: seq<real>, v: real)
    requires |s| > 0
    requires forall k :: 0 <= k < |s| ==> s[k] == v
    ensures Mean(s) == Some(v)
  {
    SumConstant(s, v);
    assert Sum(s) / |s| as real == v;
  }

  /** numpy.zeros(n). */
  function Zeros(n: nat): (z: seq<real>)
    ensures |z| == n && forall k :: 0 <= k < n ==> z[k] == 0.0
  {
    seq(n, _ => 0.0)
  }

  /** Elementwise difference of two signals of the same length. */
  function Sub(a: seq<real>, b: seq<real>): (r: seq<real>)
    requires |a| == |b|
    ensures |r| == |a|
    ensures forall k :: 0 <= k < |a| ==> r[k] == a[k] - b[k]
  {
    seq(|a|, k requires 0 <= k < |a| => a[k] - b[k])
  }

  /** Elementwise sum of two signals of the same length. */
  function Add(a: seq<real>, b: seq<real>): (r: seq<real>)
    requires |a| == |b|
    ensures |r| == |a|
    ensures forall k :: 0 <= k < |a| ==> r[k] == a[k] + b[k]
  {
    seq(|a|, k requires 0 <= k < |a| => a[k] + b[k])
  }

  /** The sum of an elementwise sum is the sum of the sums. */
  lemma {:induction false} SumAdd(a: seq<real>, b: seq<real>)
    requires |a| == |b|
    ensures Sum(Add(a, b)) == Sum(a) + Sum(b)
    decreases |a|
  {
    if |a| > 0 {
      var n := |a| - 1;
      assert Add(a, b)[..n] == Add(a[..n], b[..n]);
      SumAdd(a[..n], b[..n]);
    }
  }

  /** The sum of an elementwise difference is the difference of the sums. */
  lemma {:induction false} SumSub(a: seq<real>, b: seq<real>)
    requires |a| == |b|
    ensures Sum(Sub(a, b)) == Sum(a) - Sum(b)
    decreases |a|
  {
    if |a| > 0 {
      var n := |a| - 1;
      assert Sub(a, b)[..n] == Sub(a[..n], b[..n]);
      SumSub(a[..n], b[..n]);
    }
  }

  /** A signal multiplied by a scalar. */
  function Scale(c: real, a: seq<real>): (r: seq<real>)
    ensures |r| == |a|
    ensures forall k :: 0 <= k < |a| ==> r[k] == c * a[k]
  {
    seq(|a|, k requires 0 <= k < |a| => c * a[k])
  }

  /** Elementwise product (numpy's `*` on arrays of the same shape). */
  function Times(a: seq<real>, b: seq<real>): (r: seq<real>)
    requires |a| == |b|
    ensures |r| == |a|
    ensures forall k :: 0 <= k < |a| ==> r[k] == a[k] * b[k]
  {
    seq(|a|, k requires 0 <= k < |a| => a[k] * b[k])
  }

  /** numpy.dot of two vectors of the same length. */
  function Dot(a: seq<real>, b: seq<real>): real
    requires |a| == |b|
    decreases |a|
  {
    if |a| == 0 then 0.0 else Dot(a[..|a| - 1], b[..|b| - 1]) + a[|a| - 1] * b[|b| - 1]
  }

  lemma {:induction false} DotConcat(a: seq<real>, b: seq<real>, c: seq<real>, d: seq<real>)
    requires |a| == |c| && |b| == |d|
    ensures Dot(a + b, c + d) == Dot(a, c) + Dot(b, d)
    decreases |b|
  {
    if |b| == 0 {
      assert a + b == a && c + d == c;
    } else {
      assert (a + b)[..|a + b| - 1] == a + b[..|b| - 1];
      assert (c + d)[..|c + d| - 1] == c + d[..|d| - 1];
      DotConcat(a, b[..|b| - 1], c, d[..|d| - 1]);
    }
  }

  lemma {:induction false} DotSymmetric(a: seq<real>, b: seq<real>)
    requires |a| == |b|
    ensures Dot(a, b) == Dot(b, a)
    decreases |a|
  {
    if |a| > 0 {
      DotSymmetric(a[..|a| - 1], b[..|b| - 1]);
    }
  }

  /** The dot product distributes over elementwise addition in its first argument. */
  lemma {:induction false} DotAdd(a: seq<real>, b: seq<real>, v: seq<real>)
    requires |a| == |b| == |v|
    ensures Dot(Add(a, b), v) == Dot(a, v) + Dot(b, v)
    decreases |a|
  {
    if |a| > 0 {
      var n := |a| - 1;
      var u, w := Add(a, b), Add(a[..n], b[..n]);
      assert u[..n] == w by {
        forall k | 0 <= k < n ensures u[..n][k] == w[k] { }
      }
      DotAdd(a[..n], b[..n], v[..n]);
    }
  }

  /** The dot product is linear in its first argument. */
  lemma DotLinear(a: seq<real>, b: seq<real>, c: real, v: seq<real>)
    requires |a| == |b| == |v|
    ensures Dot(Add(a, Scale(c, b)), v) == Dot(a, v) + c * Dot(b, v)
  {
    DotAdd(a, Scale(c, b), v);
    DotScale(c, b, v);
  }

  lemma {:induction false} DotScale(c: real, a: seq<real>, v: seq<real>)
    requires |a| == |v|
    ensures Dot(Scale(c, a), v) == c * Dot(a, v)
    decreases |a|
  {
    if |a| > 0 {
      var n := |a| - 1;
      var u, w := Scale(c, a), Scale(c, a[..n]);
      assert u[..n] == w by {
        forall k | 0 <= k < n ensures u[..n][k] == w[k] { }
      }
      DotScale(c, a[..n], v[..n]);
    }
  }

  /** A squared norm is never negative. */
  lemma {:induction false} DotSelfNonNegative(a: seq<real>)
    ensures Dot(a, a) >= 0.0
    decreases |a|
  {
    if |a| > 0 {
      DotSelfNonNegative(a[..|a| - 1]);
    }
  }

  /** A vector that is zero everywhere has a zero dot product with anything. */
  lemma {:induction false} DotZero(a: seq<real>, v: seq<real>)
    requires |a| == |v|
    requires forall k :: 0 <= k < |a| ==> a[k] == 0.0
    ensures Dot(a, v) == 0.0
    decreases |a|
  {
    if |a| > 0 {
      DotZero(a[..|a| - 1], v[..|v| - 1]);
    }
  }

  /** numpy.std, a parameter wherever it is used; each use says which ddof it passes. */
  type StdDev = seq<real> -> real

  // ---------------------------------------------------------------------
  // Python's conversions

  /** Python's int() of a float: truncation toward zero. */
  function Trunc(x: real): (r: int)
    ensures x >= 0.0 ==> 0 <= r && r as real <= x < r as real + 1.0
    ensures x < 0.0 ==> r <= 0 && r as real - 1.0 < x <= r as real
  {
    if x >= 0.0 then x.Floor else -((-x).Floor)
  }

  /** Python's `//` on integers: the floor of the quotient. */
  function FloorDiv(a: int, b: int): (q: int)
    requires b != 0
    ensures b > 0 ==> b * q <= a < b * q + b
    ensures b < 0 ==> b * q >= a > b * q + b
  {
    if b > 0 then a / b else (-a) / (-b)
  }

  /** A float quotient whose divisor may be zero; 0 stands for the inf/NaN numpy would produce. */
  function Quot(a: real, b: real): (q: real)
    ensures b != 0.0 ==> q * b == a
    ensures b == 0.0 ==> q == 0.0
  {
    if b == 0.0 then 0.0 else a / b
  }

  /** Python's reading of an index into a sequence of length n: negative indices count from the end. */
  function PyIndex(k: int, n: nat): (r: Option<nat>)
    ensures r.Some? <==> -(n as int) <= k < n
    ensures r.Some? ==> r.value < n && (r.value == k || r.value == k + n)
  {
    if 0 <= k < n then Some(k) else if -(n as int) <= k < 0 then Some(k + n) else None
  }

  function Min(a: int, b: int): int { if a <= b then a else b }
  function Max(a: int, b: int): int { if a >= b then a else b }
}
