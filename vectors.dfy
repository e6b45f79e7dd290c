/** Exact real vector algebra standing in for the numpy float arrays. */
module Vectors {

  type Vector = seq<real>
  type Matrix = seq<Vector>

  /** Every row of `X` has `d` columns. */
  predicate IsMatrix(X: Matrix, d: nat)
  {
    forall i :: 0 <= i < |X| ==> |X[i]| == d
  }

  /** Left-to-right sum of a sequence of reals (Python's `sum` and numpy's `sum`). */
  function Sum(s: seq<real>): real
  {
    if |s| == 0 then 0.0 else Sum(s[..|s| - 1]) + s[|s| - 1]
  }

  /** The sum of a sequence of counts. */
  function SumNat(s: seq<nat>): nat
  {
    if s == [] then 0 else s[0] + SumNat(s[1..])
  }

  lemma {:induction false} SumNatConcat(a: seq<nat>, b: seq<nat>)
    ensures SumNat(a + b) == SumNat(a) + SumNat(b)
  {
    if a != [] {
      assert (a + b)[0] == a[0] && (a + b)[1..] == a[1..] + b;
      SumNatConcat(a[1..], b);
    } else {
      assert a + b == b;
    }
  }

  lemma {:induction false} SumNatPointwise(a: seq<nat>, b: seq<nat>, c: seq<nat>)
    requires |a| == |b| == |c|
    requires forall k :: 0 <= k < |c| ==> c[k] == a[k] + b[k]
    ensures SumNat(c) == SumNat(a) + SumNat(b)
  {
    if c != [] {
      SumNatPointwise(a[1..], b[1..], c[1..]);
    }
  }

  lemma {:induction false} SumNatZeros(z: seq<nat>)
    requires forall k :: 0 <= k < |z| ==> z[k] == 0
    ensures SumNat(z) == 0
  {
    if z != [] {
      SumNatZeros(z[1..]);
    }
  }

  function Zeros(d: nat): (r: Vector)
    ensures |r| == d
  {
    seq(d, j => 0.0)
  }

  function Add(a: Vector, b: Vector): (r: Vector)
    requires |a| == |b|
    ensures |r| == |a|
  {
    seq(|a|, j requires 0 <= j < |a| => a[j] + b[j])
  }

  function Sub(a: Vector, b: Vector): (r: Vector)
    requires |a| == |b|
    ensures |r| == |a|
  {
    seq(|a|, j requires 0 <= j < |a| => a[j] - b[j])
  }

  function Scale(c: real, a: Vector): (r: Vector)
    ensures |r| == |a|
  {
    seq(|a|, j requires 0 <= j < |a| => c * a[j])
  }

  function Dot(a: Vector, b: Vector): real
    requires |a| == |b|
  {
    Sum(seq(|a|, j requires 0 <= j < |a| => a[j] * b[j]))
  }

  /** `np.tile(w, (1, M))`: M copies of `w`, one per column. */
  function Replicate(w: Vector, m: nat): (r: seq<Vector>)
    ensures |r| == m && IsMatrix(r, |w|)
  {
    seq(m, i => w)
  }

  /** Entry `j` of every vector in `vs`. */
  function Column(vs: seq<Vector>, j: nat): (c: seq<real>)
    requires forall k :: 0 <= k < |vs| ==> j < |vs[k]|
    ensures |c| == |vs|
  {
    seq(|vs|, k requires 0 <= k < |vs| => vs[k][j])
  }

  /** Elementwise sum of equal-length vectors. */
  function SumVecs(vs: seq<Vector>, d: nat): (r: Vector)
    requires IsMatrix(vs, d)
    ensures |r| == d
  {
    seq(d, j requires 0 <= j < d => Sum(Column(vs, j)))
  }

  /** Elementwise unweighted mean of a non-empty list of equal-length vectors. */
  function MeanVecs(vs: seq<Vector>, d: nat): (r: Vector)
    requires |vs| > 0 && IsMatrix(vs, d)
    ensures |r| == d
  {
    Scale(1.0 / (|vs| as real), SumVecs(vs, d))
  }

  // ---------------------------------------------------------------------------
  // Facts about Sum

  lemma {:induction false} SumConcat(a: seq<real>, b: seq<real>)
    ensures Sum(a + b) == Sum(a) + Sum(b)
  {
    if |b| == 0 {
      assert a + b == a;
    } else {
      assert (a + b)[..|a + b| - 1] == a + b[..|b| - 1];
      SumConcat(a, b[..|b| - 1]);
    }
  }

  /** Sum is linear: a pointwise combination sums to the same combination of sums. */
  lemma {:induction false} SumLinear(a: seq<real>, b: seq<real>, c: seq<real>, alpha: real, beta: real)
    requires |a| == |b| == |c|
    requires forall j :: 0 <= j < |c| ==> c[j] == alpha * a[j] + beta * b[j]
    ensures Sum(c) == alpha * Sum(a) + beta * Sum(b)
  {
    if |c| > 0 {
      var n := |c| - 1;
      SumLinear(a[..n], b[..n], c[..n], alpha, beta);
    }
  }

  /** A sequence of `n` copies of `x` sums to `n * x`. */
  lemma {:induction false} SumConst(s: seq<real>, x: real)
    requires forall j :: 0 <= j < |s| ==> s[j] == x
    ensures Sum(s) == (|s| as real) * x
  {
    if |s| > 0 {
      SumConst(s[..|s| - 1], x);
    }
  }

  /** If every b_j is c - a_j, then Sum(b) is |a| c - Sum(a). */
  lemma {:induction false} SumAffine(a: seq<real>, b: seq<real>, c: real, n: real)
    requires |a| == |b| && n == |a| as real
    requires forall j :: 0 <= j < |b| ==> b[j] == -1.0 * a[j] + c
    ensures Sum(b) == -1.0 * Sum(a) + c * n
  {
    if |a| > 0 {
      var k := |a| - 1;
      SumAffine(a[..k], b[..k], c, k as real);
    }
  }

  /** Adding the same k to every entry adds |a| k to the sum. */
  lemma {:induction false} SumShift(a: seq<real>, b: seq<real>, k: real)
    requires |a| == |b|
    requires forall j :: 0 <= j < |b| ==> b[j] == a[j] + k
    ensures Sum(b) == Sum(a) + (|a| as real) * k
  {
    if |a| > 0 {
      var n := |a| - 1;
      SumShift(a[..n], b[..n], k);
    }
  }

  lemma {:induction false} SumMonotone(a: seq<real>, b: seq<real>)
    requires |a| == |b|
    requires forall j :: 0 <= j < |a| ==> a[j] <= b[j]
    ensures Sum(a) <= Sum(b)
  {
    if |a| > 0 {
      SumMonotone(a[..|a| - 1], b[..|b| - 1]);
    }
  }

  lemma {:induction false} SumMonotoneAdd(a: seq<real>, b: seq<real>, c: seq<real>)
    requires |a| == |b| == |c|
    requires forall j :: 0 <= j < |c| ==> a[j] + b[j] <= c[j]
    ensures Sum(a) + Sum(b) <= Sum(c)
  {
    if |c| > 0 {
      var n := |c| - 1;
      SumMonotoneAdd(a[..n], b[..n], c[..n]);
    }
  }

  // ---------------------------------------------------------------------------
  // Facts about Dot

  lemma DotSymmetric(a: Vector, b: Vector)
    requires |a| == |b|
    ensures Dot(a, b) == Dot(b, a)
  {
    assert seq(|a|, j requires 0 <= j < |a| => a[j] * b[j]) == seq(|b|, j requires 0 <= j < |b| => b[j] * a[j]);
  }

  /** Dot is linear in its first argument. */
  lemma DotLinear(a: Vector, b: Vector, c: Vector, u: Vector, alpha: real, beta: real)
    requires |a| == |b| == |c| == |u|
    requires forall j :: 0 <= j < |c| ==> c[j] == alpha * a[j] + beta * b[j]
    ensures Dot(c, u) == alpha * Dot(a, u) + beta * Dot(b, u)
  {
    var pa := seq(|a|, j requires 0 <= j < |a| => a[j] * u[j]);
    var pb := seq(|b|, j requires 0 <= j < |b| => b[j] * u[j]);
    var pc := seq(|c|, j requires 0 <= j < |c| => c[j] * u[j]);
    forall j | 0 <= j < |c|
      ensures pc[j] == alpha * pa[j] + beta * pb[j]
    {
      calc {
        pc[j];
        c[j] * u[j];
        (alpha * a[j] + beta * b[j]) * u[j];
        alpha * (a[j] * u[j]) + beta * (b[j] * u[j]);
      }
    }
    SumLinear(pa, pb, pc, alpha, beta);
  }

  lemma DotSelfNonnegative(a: Vector)
    ensures Dot(a, a) >= 0.0
  {
    var p := seq(|a|, j requires 0 <= j < |a| => a[j] * a[j]);
    SumMonotone(Zeros(|a|), p);
    SumConst(Zeros(|a|), 0.0);
  }

  /** |v|^2 - |w|^2 - 2 w.(v - w) is the square |v - w|^2, hence never negative. */
  lemma SquareExpansion(v: Vector, w: Vector)
    requires |v| == |w|
    ensures Dot(v, v) - Dot(w, w) - 2.0 * Dot(w, Sub(v, w)) >= 0.0
  {
    var u := Sub(v, w);
    // u.u = v.u - w.u, and v.v - w.w = v.u + w.u (by symmetry), so the gap is u.u.
    DotLinear(v, w, u, u, 1.0, -1.0);
    DotLinear(v, w, u, v, 1.0, -1.0);
    DotLinear(v, w, u, w, 1.0, -1.0);
    DotSymmetric(u, v);
    DotSymmetric(u, w);
    DotSymmetric(v, w);
    DotSelfNonnegative(u);
  }

  // ---------------------------------------------------------------------------
  // Facts about SumVecs and MeanVecs

  lemma SumVecsSnoc(vs: seq<Vector>, d: nat)
    requires |vs| > 0 && IsMatrix(vs, d)
    ensures SumVecs(vs, d) == Add(SumVecs(vs[..|vs| - 1], d), vs[|vs| - 1])
  {
    forall j | 0 <= j < d
      ensures SumVecs(vs, d)[j] == SumVecs(vs[..|vs| - 1], d)[j] + vs[|vs| - 1][j]
    {
      assert Column(vs, j)[..|vs| - 1] == Column(vs[..|vs| - 1], j);
    }
  }

  lemma MeanVecsEntry(vs: seq<Vector>, d: nat, j: nat)
    requires |vs| > 0 && IsMatrix(vs, d) && j < d
    ensures MeanVecs(vs, d)[j] == Sum(Column(vs, j)) / (|vs| as real)
  {
    var n := |vs| as real;
    var t := Sum(Column(vs, j));
    assert MeanVecs(vs, d)[j] == (1.0 / n) * t;
  }

  /** Every row negated and shifted by `r`: row i is r - ms_i. */
  function NegShift(ms: seq<Vector>, r: Vector): (gs: seq<Vector>)
    requires IsMatrix(ms, |r|)
    ensures |gs| == |ms| && IsMatrix(gs, |r|)
  {
    seq(|ms|, i requires 0 <= i < |ms| => Add(Scale(-1.0, ms[i]), r))
  }

  /** Entry j of the mean of the shifted rows. */
  lemma MeanNegShiftEntry(ms: seq<Vector>, r: Vector, j: nat)
    requires IsMatrix(ms, |r|) && |ms| > 0 && j < |r|
    ensures MeanVecs(NegShift(ms, r), |r|)[j] == (-1.0 / (|ms| as real)) * Sum(Column(ms, j)) + r[j]
  {
    var n, gs := |ms| as real, NegShift(ms, r);
    var cm, cg := Column(ms, j), Column(gs, j);
    assert forall i :: 0 <= i < |cg| ==> cg[i] == -1.0 * cm[i] + r[j];
    SumAffine(cm, cg, r[j], n);
    MeanVecsEntry(gs, |r|, j);
    assert Sum(cg) / n == (-1.0 * Sum(cm)) / n + (r[j] * n) / n;
  }

  /** The mean of the shifted rows is the shift minus the mean of the rows. */
  lemma MeanNegShift(ms: seq<Vector>, r: Vector)
    requires IsMatrix(ms, |r|) && |ms| > 0
    ensures MeanVecs(NegShift(ms, r), |r|) == Add(Scale(-1.0 / (|ms| as real), SumVecs(ms, |r|)), r)
  {
    var lhs := Add(Scale(-1.0 / (|ms| as real), SumVecs(ms, |r|)), r);
    forall j | 0 <= j < |r|
      ensures MeanVecs(NegShift(ms, r), |r|)[j] == lhs[j]
    {
      MeanNegShiftEntry(ms, r, j);
    }
  }

  /** The dot products of the vectors in `gs` with `u`. */
  function DotsWith(gs: seq<Vector>, u: Vector): (r: seq<real>)
    requires IsMatrix(gs, |u|)
    ensures |r| == |gs|
  {
    seq(|gs|, k requires 0 <= k < |gs| => Dot(gs[k], u))
  }

  /** The dot product of a sum of vectors is the sum of the dot products. */
  lemma {:induction false} DotSumVecs(vs: seq<Vector>, u: Vector)
    requires IsMatrix(vs, |u|)
    ensures Dot(SumVecs(vs, |u|), u) == Sum(DotsWith(vs, u))
  {
    var d := |u|;
    if |vs| == 0 {
      DotLinear(Zeros(d), Zeros(d), SumVecs(vs, d), u, 0.0, 0.0);
    } else {
      var n := |vs| - 1;
      DotSumVecs(vs[..n], u);
      assert DotsWith(vs, u)[..n] == DotsWith(vs[..n], u);
      SumVecsSnoc(vs, d);
      DotLinear(SumVecs(vs[..n], d), vs[n], SumVecs(vs, d), u, 1.0, 1.0);
    }
  }

  /** The dot product of a mean of vectors is the mean of the dot products. */
  lemma DotMeanVecs(vs: seq<Vector>, u: Vector)
    requires |vs| > 0 && IsMatrix(vs, |u|)
    ensures Dot(MeanVecs(vs, |u|), u) == Sum(DotsWith(vs, u)) / (|vs| as real)
  {
    var s := SumVecs(vs, |u|);
    DotLinear(s, s, MeanVecs(vs, |u|), u, 1.0 / (|vs| as real), 0.0);
    DotSumVecs(vs, u);
  }

  /** The mean of copies of one vector is that vector. */
  lemma MeanOfReplicate(w: Vector, m: nat)
    requires m > 0
    ensures MeanVecs(Replicate(w, m), |w|) == w
  {
    var r := MeanVecs(Replicate(w, m), |w|);
    forall j | 0 <= j < |w|
      ensures r[j] == w[j]
    {
      SumConst(Column(Replicate(w, m), j), w[j]);
    }
  }

  /** Taking out entry `k` takes `s[k]` out of the sum. */
  lemma {:induction false} SumRemoveAt(s: seq<real>, k: nat)
    requires k < |s|
    ensures Sum(s) == Sum(s[..k] + s[k + 1..]) + s[k]
  {
    var a, b, one := s[..k], s[k + 1..], [s[k]];
    assert s == (a + one) + b;
    SumConcat(a + one, b);
    SumConcat(a, one);
    SumConcat(a, b);
    assert Sum(one) == s[k] by {
      assert one[..0] == [];
    }
  }

  lemma MultisetRemoveAt<T>(s: seq<T>, k: nat)
    requires k < |s|
    ensures multiset(s[..k] + s[k + 1..]) == multiset(s) - multiset{s[k]}
  {
    assert s == s[..k] + [s[k]] + s[k + 1..];
  }

  /** Taking out vector `k` takes entry `k` out of every column. */
  lemma ColumnRemoveAt(vs: seq<Vector>, k: nat, j: nat)
    requires k < |vs| && forall i :: 0 <= i < |vs| ==> j < |vs[i]|
    ensures Column(vs[..k] + vs[k + 1..], j) == Column(vs, j)[..k] + Column(vs, j)[k + 1..]
  {
  }

  /** Reordering the vectors does not change any column sum. */
  lemma {:induction false} ColumnSumPermutation(vs: seq<Vector>, us: seq<Vector>, d: nat, j: nat)
    requires IsMatrix(vs, d) && IsMatrix(us, d) && j < d
    requires multiset(vs) == multiset(us)
    ensures Sum(Column(vs, j)) == Sum(Column(us, j))
  {
    if |vs| == 0 {
      assert |us| == |multiset(us)| == 0;
    } else {
      var n := |vs| - 1;
      var x := vs[n];
      assert x in multiset(us) by {
        assert x in multiset(vs);
      }
      var k :| 0 <= k < |us| && us[k] == x;
      var rest := us[..k] + us[k + 1..];
      MultisetRemoveAt(us, k);
      MultisetRemoveAt(vs, n);
      assert vs[..n] + vs[n + 1..] == vs[..n];
      ColumnSumPermutation(vs[..n], rest, d, j);
      ColumnRemoveAt(vs, n, j);
      ColumnRemoveAt(us, k, j);
      SumRemoveAt(Column(vs, j), n);
      SumRemoveAt(Column(us, j), k);
    }
  }

  /** The mean does not depend on the order of the vectors. */
  lemma MeanVecsPermutation(vs: seq<Vector>, us: seq<Vector>, d: nat)
    requires |vs| > 0 && IsMatrix(vs, d) && IsMatrix(us, d)
    requires multiset(vs) == multiset(us)
    ensures |us| == |vs| && MeanVecs(vs, d) == MeanVecs(us, d)
  {
    assert |us| == |multiset(us)| == |multiset(vs)| == |vs|;
    var sv, su := SumVecs(vs, d), SumVecs(us, d);
    forall j | 0 <= j < d
      ensures sv[j] == su[j]
    {
      ColumnSumPermutation(vs, us, d, j);
    }
    assert sv == su;
  }
}
