/**
 * The `solver` entry point: it dispatches on a method name to one of the
 * three optimizers, failing on any other name before running anything, and
 * then evaluates the trained weights on a test set.
 */
module Solver {
  import opened Wrappers
  import opened Vectors
  import opened Optimizers
  import opened Fsvrg

  /** The three method names `solver` knows. */
  predicate KnownMethod(tag: string)
  {
    tag == "gd" || tag == "sgd" || tag == "fsvrg"
  }

  /** Training ends without error: a known method, and for `fsvrg` an epoch length that makes progress. */
  predicate Trains(tag: string, iters: nat, epochLen: Option<int>)
  {
    KnownMethod(tag) && (tag == "fsvrg" ==> Terminates(iters, epochLen))
  }

  /**
   * numpy broadcasting of two columns of n and m entries, as in the
   * elementwise `==` of `accuracy` and the product `y * (X @ w)` of
   * `hinge_loss`: equal lengths, or one of them a single entry.
   */
  predicate ColumnsBroadcast(n: nat, m: nat)
  {
    n == m || n == 1 || m == 1
  }

  /**
   * `solver`: run the optimizer named by `tag` from w_init, then evaluate the
   * trained weights on the test set. The inputs an optimizer needs are
   * demanded only when that optimizer is chosen; an unknown name is rejected
   * before any worker data is looked at, and `fsvrg` passes on the failure of
   * an epoch length below 1. The test accuracy and loss are only reported, so
   * only their failures are kept: `X_test @ w` needs |w| columns, and the
   * labels must broadcast against the predictions.
   */
  method Solve(wInit: Vector, Xs: seq<Matrix>, ys: seq<Vector>, XTest: Matrix, yTest: Vector,
               lr: real, lam: real, iters: nat, tag: string, epochLen: Option<int>, draws: seq<seq<nat>>)
    returns (r: Result<Vector>)
    requires KnownMethod(tag) ==> WellFormedWorkers(Xs, ys, |wInit|)
    requires tag == "sgd" || tag == "fsvrg" ==> ValidDraws(draws, Xs, iters)
    ensures r.Ok? <==> Trains(tag, iters, epochLen) && IsMatrix(XTest, |wInit|) && ColumnsBroadcast(|XTest|, |yTest|)
    ensures !KnownMethod(tag) ==> r == Err(UnknownMethod(tag))
    ensures tag == "fsvrg" && !Terminates(iters, epochLen) ==> r == Err(UnboundLocal("i"))
    ensures Trains(tag, iters, epochLen) && !IsMatrix(XTest, |wInit|) ==> r == Err(ShapeMismatch)
    ensures Trains(tag, iters, epochLen) && IsMatrix(XTest, |wInit|) && !ColumnsBroadcast(|XTest|, |yTest|) ==>
              r == Err(BroadcastMismatch)
    ensures r.Ok? && tag == "gd" ==> r.value == GDIterate(wInit, Xs, ys, lr, lam, iters)
    ensures r.Ok? && tag == "sgd" ==> r.value == SGDIterate(wInit, Xs, ys, lr, lam, draws, iters)
    ensures r.Ok? && tag == "fsvrg" ==> r.value == FsvrgResult(wInit, Xs, ys, lr, lam, iters, epochLen, draws)
    ensures r.Ok? ==> |r.value| == |wInit|
  {
    var w := wInit;
    if tag == "gd" {
      w := GradientDescent(w, Xs, ys, lr, lam, iters);
    } else if tag == "sgd" {
      w := StochasticGradientDescent(w, Xs, ys, lr, lam, iters, draws);
    } else if tag == "fsvrg" {
      var trained := FsvrgLoop(w, Xs, ys, lr, lam, iters, epochLen, draws);
      if trained.Err? {
        return trained;
      }
      w := trained.value;
    } else {
      return Err(UnknownMethod(tag));
    }
    if !IsMatrix(XTest, |w|) {
      return Err(ShapeMismatch);
    }
    if !ColumnsBroadcast(|XTest|, |yTest|) {
      return Err(BroadcastMismatch);
    }
    r := Ok(w);
  }
}
