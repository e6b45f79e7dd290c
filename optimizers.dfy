/**
 * The two plain federated optimizers: full-batch gradient descent and
 * stochastic gradient descent over M workers. Each global step averages one
 * gradient per worker and moves w against that average.
 *
 * The random row choices of SGD come from an oracle `draws`: draws[t][i] is
 * the row worker i uses at global step t.
 */
module Optimizers {
  import opened Vectors
  import opened Kernel

  /** At least one worker, and every worker holds a non-empty batch with d columns. */
  predicate WellFormedWorkers(Xs: seq<Matrix>, ys: seq<Vector>, d: nat)
  {
    |Xs| >= 1 && |ys| == |Xs|
    && forall i :: 0 <= i < |Xs| ==> IsBatch(Xs[i], ys[i], d) && |Xs[i]| > 0
  }

  /** One row index per worker, each inside that worker's batch. */
  predicate ValidPicks(picks: seq<nat>, Xs: seq<Matrix>)
  {
    |picks| == |Xs| && forall i :: 0 <= i < |Xs| ==> picks[i] < |Xs[i]|
  }

  /** Row choices for at least `steps` global steps, every one of them inside the batches. */
  predicate ValidDraws(draws: seq<seq<nat>>, Xs: seq<Matrix>, steps: nat)
  {
    |draws| >= steps && forall t :: 0 <= t < |draws| ==> ValidPicks(draws[t], Xs)
  }

  // ---------------------------------------------------------------------------
  // Gradient descent

  /** `grad_full` of every worker at the same w. */
  function WorkerGradients(w: Vector, Xs: seq<Matrix>, ys: seq<Vector>, lam: real): (gs: seq<Vector>)
    requires WellFormedWorkers(Xs, ys, |w|)
    ensures |gs| == |Xs| && IsMatrix(gs, |w|)
  {
    seq(|Xs|, i requires 0 <= i < |Xs| => GradFull(w, Xs[i], ys[i], lam))
  }

  /** `sum(grad_full(w, Xs[i], ys[i], lam) for i in range(M)) / M`. */
  function MeanFullGrad(w: Vector, Xs: seq<Matrix>, ys: seq<Vector>, lam: real): (g: Vector)
    requires WellFormedWorkers(Xs, ys, |w|)
    ensures |g| == |w|
  {
    MeanVecs(WorkerGradients(w, Xs, ys, lam), |w|)
  }

  /** One update `w - lr * G` of gradient descent. */
  function GDStep(w: Vector, Xs: seq<Matrix>, ys: seq<Vector>, lr: real, lam: real): (w': Vector)
    requires WellFormedWorkers(Xs, ys, |w|)
    ensures |w'| == |w|
  {
    Sub(w, Scale(lr, MeanFullGrad(w, Xs, ys, lam)))
  }

  /** The weights after `k` gradient-descent steps from `w`. */
  function GDIterate(w: Vector, Xs: seq<Matrix>, ys: seq<Vector>, lr: real, lam: real, k: nat): (w': Vector)
    requires WellFormedWorkers(Xs, ys, |w|)
    ensures |w'| == |w|
  {
    if k == 0 then w else GDStep(GDIterate(w, Xs, ys, lr, lam, k - 1), Xs, ys, lr, lam)
  }

  /** `gradient_descent`: exactly `iters` averaged full-gradient steps. */
  method GradientDescent(w0: Vector, Xs: seq<Matrix>, ys: seq<Vector>, lr: real, lam: real, iters: nat)
    returns (w: Vector)
    requires WellFormedWorkers(Xs, ys, |w0|)
    ensures w == GDIterate(w0, Xs, ys, lr, lam, iters)
    ensures iters == 0 ==> w == w0
  {
    w := w0;
    for k := 0 to iters
      invariant w == GDIterate(w0, Xs, ys, lr, lam, k)
    {
      var G := MeanFullGrad(w, Xs, ys, lam);
      w := Sub(w, Scale(lr, G));
    }
  }

  /** Running a + b steps is running a steps and then b more. */
  lemma {:induction false} GDComposition(w: Vector, Xs: seq<Matrix>, ys: seq<Vector>, lr: real, lam: real, a: nat, b: nat)
    requires WellFormedWorkers(Xs, ys, |w|)
    ensures GDIterate(w, Xs, ys, lr, lam, a + b) == GDIterate(GDIterate(w, Xs, ys, lr, lam, a), Xs, ys, lr, lam, b)
  {
    if b > 0 {
      GDComposition(w, Xs, ys, lr, lam, a, b - 1);
    }
  }

  /** The first step can be taken first: k+1 steps from w are k steps from GDStep(w). */
  lemma GDIterateUnroll(w: Vector, Xs: seq<Matrix>, ys: seq<Vector>, lr: real, lam: real, k: nat)
    requires WellFormedWorkers(Xs, ys, |w|)
    ensures GDIterate(w, Xs, ys, lr, lam, k + 1) == GDIterate(GDStep(w, Xs, ys, lr, lam), Xs, ys, lr, lam, k)
  {
    GDComposition(w, Xs, ys, lr, lam, 1, k);
  }

  /** A point where the averaged gradient vanishes is never left. */
  lemma {:induction false} GDFixedPoint(w: Vector, Xs: seq<Matrix>, ys: seq<Vector>, lr: real, lam: real, k: nat)
    requires WellFormedWorkers(Xs, ys, |w|)
    requires MeanFullGrad(w, Xs, ys, lam) == Zeros(|w|)
    ensures GDIterate(w, Xs, ys, lr, lam, k) == w
  {
    if k > 0 {
      GDFixedPoint(w, Xs, ys, lr, lam, k - 1);
      assert GDStep(w, Xs, ys, lr, lam) == w;
    }
  }

  /** With a single worker the averaged gradient is that worker's `grad_full`. */
  lemma SingleWorkerGradient(w: Vector, X: Matrix, y: Vector, lam: real)
    requires IsBatch(X, y, |w|) && |X| > 0
    ensures MeanFullGrad(w, [X], [y], lam) == GradFull(w, X, y, lam)
  {
    var g := GradFull(w, X, y, lam);
    assert WorkerGradients(w, [X], [y], lam) == Replicate(g, 1);
    MeanOfReplicate(g, 1);
  }

  // ---------------------------------------------------------------------------
  // Stochastic gradient descent

  /** `grad_point` of every worker at its drawn row. */
  function SampleGradients(w: Vector, Xs: seq<Matrix>, ys: seq<Vector>, lam: real, picks: seq<nat>): (gs: seq<Vector>)
    requires WellFormedWorkers(Xs, ys, |w|) && ValidPicks(picks, Xs)
    ensures |gs| == |Xs| && IsMatrix(gs, |w|)
  {
    seq(|Xs|, i requires 0 <= i < |Xs| => GradPoint(w, Xs[i][picks[i]], ys[i][picks[i]], lam))
  }

  /** One update `w - lr * sum(grads) / M` of SGD. */
  function SGDStep(w: Vector, Xs: seq<Matrix>, ys: seq<Vector>, lr: real, lam: real, picks: seq<nat>): (w': Vector)
    requires WellFormedWorkers(Xs, ys, |w|) && ValidPicks(picks, Xs)
    ensures |w'| == |w|
  {
    Sub(w, Scale(lr, MeanVecs(SampleGradients(w, Xs, ys, lam, picks), |w|)))
  }

  /** The weights after the first `k` SGD steps, step t using the rows draws[t]. */
  function SGDIterate(w: Vector, Xs: seq<Matrix>, ys: seq<Vector>, lr: real, lam: real,
                      draws: seq<seq<nat>>, k: nat): (w': Vector)
    requires WellFormedWorkers(Xs, ys, |w|) && ValidDraws(draws, Xs, k)
    ensures |w'| == |w|
  {
    if k == 0 then w
    else SGDStep(SGDIterate(w, Xs, ys, lr, lam, draws, k - 1), Xs, ys, lr, lam, draws[k - 1])
  }

  /**
   * One SGD step: the list `grads` gets one `grad_point` per worker, appended
   * in worker order, and w moves against their mean.
   */
  method SgdUpdate(w: Vector, Xs: seq<Matrix>, ys: seq<Vector>, lr: real, lam: real, picks: seq<nat>)
    returns (w': Vector)
    requires WellFormedWorkers(Xs, ys, |w|) && ValidPicks(picks, Xs)
    ensures w' == SGDStep(w, Xs, ys, lr, lam, picks)
  {
    var grads: seq<Vector> := [];
    for i := 0 to |Xs|
      invariant grads == SampleGradients(w, Xs, ys, lam, picks)[..i]
    {
      var idx := picks[i];
      grads := grads + [GradPoint(w, Xs[i][idx], ys[i][idx], lam)];
    }
    assert grads == SampleGradients(w, Xs, ys, lam, picks);
    w' := Sub(w, Scale(lr, MeanVecs(grads, |w|)));
  }

  /** Global step k of SGD, taken from the weights the first k steps reached. */
  method SgdStepAt(w0: Vector, w: Vector, Xs: seq<Matrix>, ys: seq<Vector>, lr: real, lam: real,
                   draws: seq<seq<nat>>, k: nat)
    returns (w': Vector)
    requires WellFormedWorkers(Xs, ys, |w0|) && ValidDraws(draws, Xs, k + 1)
    requires w == SGDIterate(w0, Xs, ys, lr, lam, draws, k)
    ensures w' == SGDIterate(w0, Xs, ys, lr, lam, draws, k + 1)
  {
    w' := SgdUpdate(w, Xs, ys, lr, lam, draws[k]);
  }

  /** `stochastic_gradient_descent`: `iters` SGD steps, step t using the rows draws[t]. */
  method StochasticGradientDescent(w0: Vector, Xs: seq<Matrix>, ys: seq<Vector>, lr: real, lam: real,
                                   iters: nat, draws: seq<seq<nat>>)
    returns (w: Vector)
    requires WellFormedWorkers(Xs, ys, |w0|) && ValidDraws(draws, Xs, iters)
    ensures w == SGDIterate(w0, Xs, ys, lr, lam, draws, iters)
  {
    w := w0;
    for k := 0 to iters
      invariant w == SGDIterate(w0, Xs, ys, lr, lam, draws, k)
    {
      w := SgdStepAt(w0, w, Xs, ys, lr, lam, draws, k);
    }
  }

  /**
   * Per worker, the SGD gradient is unbiased: averaged over every row the
   * worker could draw, its `grad_point` is its `grad_full`.
   */
  lemma SampleGradientUnbiased(w: Vector, Xs: seq<Matrix>, ys: seq<Vector>, lam: real, i: nat)
    requires WellFormedWorkers(Xs, ys, |w|) && i < |Xs|
    ensures MeanVecs(PointGradients(w, Xs[i], ys[i], lam), |w|) == WorkerGradients(w, Xs, ys, lam)[i]
    ensures forall picks :: ValidPicks(picks, Xs) ==>
      SampleGradients(w, Xs, ys, lam, picks)[i] == PointGradients(w, Xs[i], ys[i], lam)[picks[i]]
  {
    GradFullIsMeanOfGradPoint(w, Xs[i], ys[i], lam);
  }

  /** When every worker holds a single row, SGD and gradient descent coincide. */
  lemma {:induction false} SGDOnSingleRowsIsGD(w: Vector, Xs: seq<Matrix>, ys: seq<Vector>, lr: real, lam: real,
                                               draws: seq<seq<nat>>, k: nat)
    requires WellFormedWorkers(Xs, ys, |w|) && ValidDraws(draws, Xs, k)
    requires forall i :: 0 <= i < |Xs| ==> |Xs[i]| == 1
    ensures SGDIterate(w, Xs, ys, lr, lam, draws, k) == GDIterate(w, Xs, ys, lr, lam, k)
  {
    if k > 0 {
      SGDOnSingleRowsIsGD(w, Xs, ys, lr, lam, draws, k - 1);
      var v := GDIterate(w, Xs, ys, lr, lam, k - 1);
      forall i | 0 <= i < |Xs|
        ensures SampleGradients(v, Xs, ys, lam, draws[k - 1])[i] == WorkerGradients(v, Xs, ys, lam)[i]
      {
        assert draws[k - 1][i] == 0;
        assert Xs[i] == [Xs[i][0]] && ys[i] == [ys[i][0]];
        GradFullSingleRow(v, Xs[i][0], ys[i][0], lam);
      }
      assert SampleGradients(v, Xs, ys, lam, draws[k - 1]) == WorkerGradients(v, Xs, ys, lam);
    }
  }
}
