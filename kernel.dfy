/**
 * The hinge-loss SVM kernel: per-example loss, the masked full-batch
 * sub-gradient, the single-example sub-gradient, sign prediction and accuracy.
 * Every numpy float is an exact real; a weight vector is a d-vector, a batch is
 * an n x d matrix with one label per row.
 */
module Kernel {
  import opened Vectors

  predicate IsLabel(v: real)
  {
    v == 1.0 || v == -1.0
  }

  predicate AllLabels(y: Vector)
  {
    forall i :: 0 <= i < |y| ==> IsLabel(y[i])
  }

  /** `X` has `d` columns and `y` holds one label per row of `X`. */
  predicate IsBatch(X: Matrix, y: Vector, d: nat)
  {
    IsMatrix(X, d) && |y| == |X|
  }

  /** The signed margin y (x . w) of one example. */
  function Margin(w: Vector, x: Vector, yi: real): real
    requires |x| == |w|
  {
    yi * Dot(x, w)
  }

  /** `np.maximum(0, m)` on one entry. */
  function Max0(m: real): real
  {
    if m > 0.0 then m else 0.0
  }

  function Abs(s: real): real
  {
    if s < 0.0 then -s else s
  }

  /** Per-row hinge loss max(0, 1 - y_i (x_i . w)). */
  function HingeLoss(w: Vector, X: Matrix, y: Vector): (r: Vector)
    requires IsBatch(X, y, |w|)
    ensures |r| == |X|
    ensures forall i :: 0 <= i < |X| ==>
      r[i] >= 0.0 && r[i] >= 1.0 - Margin(w, X[i], y[i])
      && (r[i] == 0.0 || r[i] == 1.0 - Margin(w, X[i], y[i]))
    ensures forall i :: 0 <= i < |X| ==> (r[i] == 0.0 <==> Margin(w, X[i], y[i]) >= 1.0)
  {
    seq(|X|, i requires 0 <= i < |X| => Max0(1.0 - Margin(w, X[i], y[i])))
  }

  /** The hinge part of `grad_point`: zero when `loss <= 0`, else -y x. */
  function HingeSubgradient(w: Vector, x: Vector, yi: real): (h: Vector)
    requires |x| == |w|
    ensures |h| == |w|
  {
    if 1.0 - Margin(w, x, yi) <= 0.0 then Zeros(|w|) else Scale(-yi, x)
  }

  /** Sub-gradient of the regularised hinge loss at one example. */
  function GradPoint(w: Vector, x: Vector, yi: real, lam: real): (g: Vector)
    requires |x| == |w|
    ensures |g| == |w|
  {
    Add(HingeSubgradient(w, x, yi), Scale(2.0 * lam, w))
  }

  /** The two branches of `grad_point`. */
  lemma GradPointCases(w: Vector, x: Vector, yi: real, lam: real)
    requires |x| == |w|
    ensures Margin(w, x, yi) >= 1.0 ==> GradPoint(w, x, yi, lam) == Scale(2.0 * lam, w)
    ensures Margin(w, x, yi) < 1.0 ==> GradPoint(w, x, yi, lam) == Add(Scale(-yi, x), Scale(2.0 * lam, w))
  {
  }

  /** The 0/1 mask `losses > 0` of one row. */
  function Mask(loss: real): real
  {
    if loss > 0.0 then 1.0 else 0.0
  }

  /** Row i of `mask * y * X`. */
  function MaskedRow(loss: real, yi: real, x: Vector): (r: Vector)
    ensures |r| == |x|
  {
    Scale(Mask(loss) * yi, x)
  }

  /** `mask * y * X`: the rows of X weighted by label, zeroed where the loss is 0. */
  function MaskedRows(w: Vector, X: Matrix, y: Vector): (m: Matrix)
    requires IsBatch(X, y, |w|)
    ensures |m| == |X| && IsMatrix(m, |w|)
  {
    var losses := HingeLoss(w, X, y);
    seq(|X|, i requires 0 <= i < |X| => MaskedRow(losses[i], y[i], X[i]))
  }

  /**
   * Masked full-batch sub-gradient: the rows with positive hinge loss contribute
   * -y_i x_i, the sum is divided by the full row count, and 2 lam w is added.
   */
  function GradFull(w: Vector, X: Matrix, y: Vector, lam: real): (g: Vector)
    requires IsBatch(X, y, |w|) && |X| > 0
    ensures |g| == |w|
  {
    Add(Scale(-1.0 / (|X| as real), SumVecs(MaskedRows(w, X, y), |w|)), Scale(2.0 * lam, w))
  }

  /** The per-example sub-gradients of a batch, in row order. */
  function PointGradients(w: Vector, X: Matrix, y: Vector, lam: real): (gs: seq<Vector>)
    requires IsBatch(X, y, |w|)
    ensures |gs| == |X| && IsMatrix(gs, |w|)
  {
    seq(|X|, i requires 0 <= i < |X| => GradPoint(w, X[i], y[i], lam))
  }

  /** Row i of the point gradients is 2 lam w minus the masked row i. */
  lemma PointGradientsShift(w: Vector, X: Matrix, y: Vector, lam: real)
    requires IsBatch(X, y, |w|)
    ensures PointGradients(w, X, y, lam) == NegShift(MaskedRows(w, X, y), Scale(2.0 * lam, w))
  {
    var gs, ns := PointGradients(w, X, y, lam), NegShift(MaskedRows(w, X, y), Scale(2.0 * lam, w));
    forall i | 0 <= i < |X|
      ensures gs[i] == ns[i]
    {
      var loss := HingeLoss(w, X, y)[i];
      if Margin(w, X[i], y[i]) >= 1.0 {
        assert loss == 0.0;
      } else {
        assert loss > 0.0;
      }
    }
  }

  /**
   * `grad_full` is the row-average of `grad_point`: dividing by the full row
   * count means every row with zero loss still counts in the denominator.
   */
  lemma GradFullIsMeanOfGradPoint(w: Vector, X: Matrix, y: Vector, lam: real)
    requires IsBatch(X, y, |w|) && |X| > 0
    ensures GradFull(w, X, y, lam) == MeanVecs(PointGradients(w, X, y, lam), |w|)
  {
    PointGradientsShift(w, X, y, lam);
    MeanNegShift(MaskedRows(w, X, y), Scale(2.0 * lam, w));
  }

  /** On a one-row batch the full-batch and single-row sub-gradients agree. */
  lemma GradFullSingleRow(w: Vector, x: Vector, yi: real, lam: real)
    requires |x| == |w|
    ensures GradFull(w, [x], [yi], lam) == GradPoint(w, x, yi, lam)
  {
    GradFullIsMeanOfGradPoint(w, [x], [yi], lam);
    assert PointGradients(w, [x], [yi], lam) == Replicate(GradPoint(w, x, yi, lam), 1);
    MeanOfReplicate(GradPoint(w, x, yi, lam), 1);
  }

  /** When every row has margin at least 1, only the regulariser remains. */
  lemma GradFullAllSatisfied(w: Vector, X: Matrix, y: Vector, lam: real)
    requires IsBatch(X, y, |w|) && |X| > 0
    requires forall i :: 0 <= i < |X| ==> Margin(w, X[i], y[i]) >= 1.0
    ensures GradFull(w, X, y, lam) == Scale(2.0 * lam, w)
  {
    GradFullIsMeanOfGradPoint(w, X, y, lam);
    var g := Scale(2.0 * lam, w);
    forall i | 0 <= i < |X|
      ensures PointGradients(w, X, y, lam)[i] == g
    {
      GradPointCases(w, X[i], y[i], lam);
    }
    assert PointGradients(w, X, y, lam) == Replicate(g, |X|);
    MeanOfReplicate(g, |X|);
  }

  // ---------------------------------------------------------------------------
  // The objectives the two sub-gradients belong to

  /** Regularised hinge loss of one example: max(0, 1 - y x.w) + lam |w|^2. */
  function PointObjective(w: Vector, x: Vector, yi: real, lam: real): real
    requires |x| == |w|
  {
    Max0(1.0 - Margin(w, x, yi)) + lam * Dot(w, w)
  }

  /** Mean hinge loss of a batch plus lam |w|^2. */
  function Objective(w: Vector, X: Matrix, y: Vector, lam: real): real
    requires IsBatch(X, y, |w|) && |X| > 0
  {
    Sum(HingeLoss(w, X, y)) / (|X| as real) + lam * Dot(w, w)
  }

  /** The hinge sub-gradient under-estimates the change of the hinge loss. */
  lemma HingeSubgradientBound(w: Vector, v: Vector, x: Vector, yi: real)
    requires |x| == |w| == |v|
    ensures Max0(1.0 - Margin(v, x, yi))
      >= Max0(1.0 - Margin(w, x, yi)) + Dot(HingeSubgradient(w, x, yi), Sub(v, w))
  {
    var u := Sub(v, w);
    var h := HingeSubgradient(w, x, yi);
    if 1.0 - Margin(w, x, yi) <= 0.0 {
      DotLinear(h, h, h, u, 0.0, 0.0);
    } else {
      DotLinear(x, x, h, u, -yi, 0.0);
      DotLinear(v, w, u, x, 1.0, -1.0);
      DotSymmetric(x, u);
      DotSymmetric(x, v);
      DotSymmetric(x, w);
      assert Dot(h, u) == yi * Dot(x, w) - yi * Dot(x, v);
    }
  }

  /** The gradient 2 lam w under-estimates the change of lam |w|^2. */
  lemma RegulariserBound(w: Vector, v: Vector, lam: real)
    requires |w| == |v| && lam >= 0.0
    ensures lam * Dot(v, v) >= lam * Dot(w, w) + Dot(Scale(2.0 * lam, w), Sub(v, w))
  {
    var u := Sub(v, w);
    var r := Scale(2.0 * lam, w);
    DotLinear(w, w, r, u, 2.0 * lam, 0.0);
    DotSymmetric(w, u);
    SquareExpansion(v, w);
    assert lam * (Dot(v, v) - Dot(w, w) - 2.0 * Dot(w, u)) >= 0.0;
  }

  /**
   * `grad_point` is a sub-gradient of the one-example objective: the linear
   * estimate it gives never overshoots the objective at any other point v.
   */
  lemma GradPointIsSubgradient(w: Vector, v: Vector, x: Vector, yi: real, lam: real)
    requires |x| == |w| == |v| && lam >= 0.0
    ensures PointObjective(v, x, yi, lam)
      >= PointObjective(w, x, yi, lam) + Dot(GradPoint(w, x, yi, lam), Sub(v, w))
  {
    var u := Sub(v, w);
    var h := HingeSubgradient(w, x, yi);
    DotLinear(h, Scale(2.0 * lam, w), GradPoint(w, x, yi, lam), u, 1.0, 1.0);
    HingeSubgradientBound(w, v, x, yi);
    RegulariserBound(w, v, lam);
  }

  /** The one-example objectives of a batch, in row order. */
  function PointObjectives(w: Vector, X: Matrix, y: Vector, lam: real): (p: seq<real>)
    requires IsBatch(X, y, |w|)
    ensures |p| == |X|
  {
    seq(|X|, i requires 0 <= i < |X| => PointObjective(w, X[i], y[i], lam))
  }

  /** Dividing p = h + n k by n gives h / n + k; kept apart so the division is reasoned about once. */
  lemma DivideShift(p: real, h: real, k: real, n: real)
    requires n > 0.0 && p == h + n * k
    ensures p / n == h / n + k
  {
    assert p / n == h / n + (n * k) / n;
  }

  /** The batch objective is the mean of the one-example objectives. */
  lemma SumOfObjectives(w: Vector, X: Matrix, y: Vector, lam: real)
    requires IsBatch(X, y, |w|) && |X| > 0
    ensures Sum(PointObjectives(w, X, y, lam)) / (|X| as real) == Objective(w, X, y, lam)
  {
    var h, k := HingeLoss(w, X, y), lam * Dot(w, w);
    var pw := PointObjectives(w, X, y, lam);
    SumShift(h, pw, k);
    DivideShift(Sum(pw), Sum(h), k, |X| as real);
  }

  /** Division by a positive n keeps a >= b + c; kept apart so the division is reasoned about once. */
  lemma DivideInequality(a: real, b: real, c: real, n: real)
    requires n > 0.0 && a >= b + c
    ensures a / n >= b / n + c / n
  {
  }

  /**
   * `grad_full` is a sub-gradient of the batch objective (mean hinge loss plus
   * lam |w|^2), so a step against it is a descent direction for that objective.
   */
  lemma GradFullIsSubgradient(w: Vector, v: Vector, X: Matrix, y: Vector, lam: real)
    requires IsBatch(X, y, |w|) && |X| > 0 && |v| == |w| && lam >= 0.0
    ensures Objective(v, X, y, lam) >= Objective(w, X, y, lam) + Dot(GradFull(w, X, y, lam), Sub(v, w))
  {
    var n, u := |X|, Sub(v, w);
    var gs := PointGradients(w, X, y, lam);
    GradFullIsMeanOfGradPoint(w, X, y, lam);
    DotMeanVecs(gs, u);
    var dots := DotsWith(gs, u);
    var pw, pv := PointObjectives(w, X, y, lam), PointObjectives(v, X, y, lam);
    forall i | 0 <= i < n
      ensures pw[i] + dots[i] <= pv[i]
    {
      GradPointIsSubgradient(w, v, X[i], y[i], lam);
    }
    SumMonotoneAdd(pw, dots, pv);
    SumOfObjectives(w, X, y, lam);
    SumOfObjectives(v, X, y, lam);
    DivideInequality(Sum(pv), Sum(pw), Sum(dots), n as real);
  }

  // ---------------------------------------------------------------------------
  // Prediction and accuracy

  /** `np.sign`: -1, 0 or 1. */
  function Sign(s: real): (r: real)
    ensures (r == 1.0 <==> s > 0.0) && (r == -1.0 <==> s < 0.0) && (r == 0.0 <==> s == 0.0)
    ensures r * s == Abs(s)
  {
    if s > 0.0 then 1.0 else if s < 0.0 then -1.0 else 0.0
  }

  function Predict(w: Vector, X: Matrix): (p: Vector)
    requires IsMatrix(X, |w|)
    ensures |p| == |X|
    ensures forall i :: 0 <= i < |X| ==>
      (Dot(X[i], w) > 0.0 ==> p[i] == 1.0) && (Dot(X[i], w) < 0.0 ==> p[i] == -1.0)
      && (Dot(X[i], w) == 0.0 ==> p[i] == 0.0) && p[i] * Dot(X[i], w) == Abs(Dot(X[i], w))
  {
    seq(|X|, i requires 0 <= i < |X| => Sign(Dot(X[i], w)))
  }

  /** The positions where `p` and `y` agree. */
  ghost function MatchSet(p: Vector, y: Vector): set<int>
    requires |p| == |y|
  {
    set i | 0 <= i < |p| && p[i] == y[i]
  }

  /** The agreeing positions of p are those of p without its last entry, plus that entry's if it agrees. */
  lemma MatchSetSnoc(p: Vector, y: Vector)
    requires |p| == |y| > 0
    ensures var n := |p| - 1;
      MatchSet(p, y) == MatchSet(p[..n], y[..n]) + (if p[n] == y[n] then {n} else {})
      && n !in MatchSet(p[..n], y[..n])
  {
    var n := |p| - 1;
    forall i | 0 <= i < n
      ensures p[..n][i] == p[i] && y[..n][i] == y[i]
    {
    }
  }

  /** Number of positions where `p` and `y` agree. */
  function CountMatches(p: Vector, y: Vector): (c: nat)
    requires |p| == |y|
    ensures c == |MatchSet(p, y)|
    ensures c <= |p|
    ensures c == |p| <==> forall i :: 0 <= i < |p| ==> p[i] == y[i]
  {
    if |p| == 0 then 0
    else
      MatchSetSnoc(p, y);
      CountMatches(p[..|p| - 1], y[..|y| - 1]) + (if p[|p| - 1] == y[|y| - 1] then 1 else 0)
  }

  /** Multiplying by a positive number keeps the order of two reals. */
  lemma PositiveScaleKeepsOrder(a: real, b: real, k: real)
    requires k > 0.0
    ensures a < b <==> a * k < b * k
    ensures a == b <==> a * k == b * k
  {
    assert (b - a) * k == b * k - a * k;
    if a < b {
      assert (b - a) * k > 0.0;
    } else if b < a {
      assert (a - b) * k > 0.0;
    }
  }

  /** A count out of n, as a fraction of n, lies in [0, 1] and is 1 only for the whole. */
  lemma FractionOfWhole(c: nat, n: nat)
    requires 0 < n && c <= n
    ensures 0.0 <= (c as real) / (n as real) <= 1.0
    ensures (c as real) / (n as real) == 1.0 <==> c == n
  {
    var cr, nr := c as real, n as real;
    var q := cr / nr;
    assert q * nr == cr;
    PositiveScaleKeepsOrder(q, 1.0, nr);
    PositiveScaleKeepsOrder(0.0, q, nr);
  }

  /** Fraction of rows whose predicted sign equals the label. */
  function Accuracy(w: Vector, X: Matrix, y: Vector): (a: real)
    requires IsBatch(X, y, |w|) && |X| > 0
    ensures 0.0 <= a <= 1.0
    ensures a == 1.0 <==> forall i :: 0 <= i < |X| ==> Predict(w, X)[i] == y[i]
    ensures a == (|MatchSet(Predict(w, X), y)| as real) / (|X| as real)
  {
    var c := CountMatches(Predict(w, X), y);
    FractionOfWhole(c, |X|);
    (c as real) / (|X| as real)
  }

  /**
   * Against +-1 labels, accuracy is 1 exactly when every margin is strictly
   * positive: a row scored exactly 0 predicts 0 and counts as a miss.
   */
  lemma AccuracyOneIffPositiveMargins(w: Vector, X: Matrix, y: Vector)
    requires IsBatch(X, y, |w|) && |X| > 0 && AllLabels(y)
    ensures Accuracy(w, X, y) == 1.0 <==> forall i :: 0 <= i < |X| ==> Margin(w, X[i], y[i]) > 0.0
  {
    var p := Predict(w, X);
    forall i | 0 <= i < |X|
      ensures p[i] == y[i] <==> Margin(w, X[i], y[i]) > 0.0
    {
      var s := Dot(X[i], w);
      if s > 0.0 {
        assert p[i] == 1.0;
      } else if s < 0.0 {
        assert p[i] == -1.0;
      } else {
        assert p[i] == 0.0 && Margin(w, X[i], y[i]) == 0.0;
      }
    }
  }

  /** Zero hinge loss on every row implies perfect accuracy against +-1 labels. */
  lemma ZeroLossMeansPerfectAccuracy(w: Vector, X: Matrix, y: Vector)
    requires IsBatch(X, y, |w|) && |X| > 0 && AllLabels(y)
    requires forall i :: 0 <= i < |X| ==> HingeLoss(w, X, y)[i] == 0.0
    ensures Accuracy(w, X, y) == 1.0
  {
    var losses := HingeLoss(w, X, y);
    forall i | 0 <= i < |X|
      ensures Margin(w, X[i], y[i]) > 0.0
    {
      assert losses[i] == 0.0;
    }
    AccuracyOneIffPositiveMargins(w, X, y);
  }
}
