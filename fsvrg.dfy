/**
 * Federated SVRG. A global counter t runs to `iters`. Each epoch:
 *   - takes the averaged full gradient at the epoch's starting point w;
 *   - gives every worker a local copy of w (one column of `Wloc`);
 *   - runs up to `epoch_len` inner steps, each moving every worker's column
 *     along its variance-reduced direction g(w_i) - g(w) + full_g at a drawn row;
 *   - replaces w by the mean of the columns.
 *
 * The row drawn by worker i at global step t is draws[t][i].
 */
module Fsvrg {
  import opened Wrappers
  import opened Vectors
  import opened Kernel
  import opened Optimizers

  // ---------------------------------------------------------------------------
  // One inner step

  /** `g_w - g_ref + full_g` at one drawn row. */
  function SvrgDirection(wi: Vector, w: Vector, x: Vector, yi: real, lam: real, fullG: Vector): (u: Vector)
    requires |wi| == |w| == |x| == |fullG|
    ensures |u| == |w|
  {
    Add(Sub(GradPoint(wi, x, yi, lam), GradPoint(w, x, yi, lam)), fullG)
  }

  /** `Wloc[:, i] -= lr * (g_w - g_ref + full_g)`. */
  function LocalUpdate(wi: Vector, w: Vector, x: Vector, yi: real, lr: real, lam: real, fullG: Vector): (wi': Vector)
    requires |wi| == |w| == |x| == |fullG|
    ensures |wi'| == |w|
  {
    Sub(wi, Scale(lr, SvrgDirection(wi, w, x, yi, lam, fullG)))
  }

  /** One inner step over all workers: column i moves using worker i's drawn row only. */
  function InnerStep(W: seq<Vector>, w: Vector, Xs: seq<Matrix>, ys: seq<Vector>, lr: real, lam: real,
                     fullG: Vector, picks: seq<nat>): (W': seq<Vector>)
    requires WellFormedWorkers(Xs, ys, |w|) && ValidPicks(picks, Xs)
    requires |W| == |Xs| && IsMatrix(W, |w|) && |fullG| == |w|
    ensures |W'| == |Xs| && IsMatrix(W', |w|)
  {
    seq(|Xs|, i requires 0 <= i < |Xs| =>
      LocalUpdate(W[i], w, Xs[i][picks[i]], ys[i][picks[i]], lr, lam, fullG))
  }

  /** The local columns after `s` inner steps of an epoch that starts at global step t0. */
  function InnerSteps(w: Vector, Xs: seq<Matrix>, ys: seq<Vector>, lr: real, lam: real, fullG: Vector,
                      draws: seq<seq<nat>>, t0: nat, s: nat): (W: seq<Vector>)
    requires WellFormedWorkers(Xs, ys, |w|) && |fullG| == |w| && ValidDraws(draws, Xs, t0 + s)
    ensures |W| == |Xs| && IsMatrix(W, |w|)
  {
    if s == 0 then Replicate(w, |Xs|)
    else InnerStep(InnerSteps(w, Xs, ys, lr, lam, fullG, draws, t0, s - 1), w, Xs, ys, lr, lam, fullG, draws[t0 + s - 1])
  }

  /** Inner step s+1 applies `InnerStep` with the rows drawn at global step t0+s. */
  lemma InnerStepsNext(w: Vector, Xs: seq<Matrix>, ys: seq<Vector>, lr: real, lam: real, fullG: Vector,
                       draws: seq<seq<nat>>, t0: nat, s: nat)
    requires WellFormedWorkers(Xs, ys, |w|) && |fullG| == |w| && ValidDraws(draws, Xs, t0 + s + 1)
    ensures ValidDraws(draws, Xs, t0 + s) && ValidPicks(draws[t0 + s], Xs)
    ensures InnerSteps(w, Xs, ys, lr, lam, fullG, draws, t0, s + 1)
      == InnerStep(InnerSteps(w, Xs, ys, lr, lam, fullG, draws, t0, s), w, Xs, ys, lr, lam, fullG, draws[t0 + s])
  {
  }

  /** One epoch of `s` inner steps from w, starting at global step t0. */
  function Epoch(w: Vector, Xs: seq<Matrix>, ys: seq<Vector>, lr: real, lam: real,
                 draws: seq<seq<nat>>, t0: nat, s: nat): (w': Vector)
    requires WellFormedWorkers(Xs, ys, |w|) && ValidDraws(draws, Xs, t0 + s)
    ensures |w'| == |w|
  {
    MeanVecs(InnerSteps(w, Xs, ys, lr, lam, MeanFullGrad(w, Xs, ys, lam), draws, t0, s), |w|)
  }

  // ---------------------------------------------------------------------------
  // The epoch schedule

  function Min(a: nat, b: nat): nat
  {
    if a <= b then a else b
  }

  /** The inner-step counts `min(epoch_len, iters - t)` of the epochs still to run. */
  function EpochLengths(remaining: nat, E: nat): (lens: seq<nat>)
    requires remaining == 0 || E >= 1
    ensures SumNat(lens) == remaining
    ensures forall k :: 0 <= k < |lens| ==> 1 <= lens[k] <= E
    decreases remaining
  {
    if remaining == 0 then []
    else [Min(E, remaining)] + EpochLengths(remaining - Min(E, remaining), E)
  }

  /** Every epoch but the last runs exactly E inner steps. */
  lemma {:induction false} EpochLengthsFull(remaining: nat, E: nat)
    requires remaining == 0 || E >= 1
    ensures forall k :: 0 <= k < |EpochLengths(remaining, E)| - 1 ==> EpochLengths(remaining, E)[k] == E
  {
    if remaining > 0 {
      EpochLengthsFull(remaining - Min(E, remaining), E);
    }
  }

  /** An epoch length of at least the whole budget gives a single epoch. */
  lemma SingleEpoch(iters: nat, E: nat)
    requires 1 <= iters <= E
    ensures EpochLengths(iters, E) == [iters]
  {
  }

  /** Row choices for `lens` epochs starting at global step t0. */
  predicate DrawsCover(draws: seq<seq<nat>>, Xs: seq<Matrix>, t0: nat, lens: seq<nat>)
  {
    ValidDraws(draws, Xs, t0 + SumNat(lens))
  }

  /** The weights after running the epochs `lens` from w, starting at global step t0. */
  function RunEpochs(w: Vector, Xs: seq<Matrix>, ys: seq<Vector>, lr: real, lam: real,
                     draws: seq<seq<nat>>, t0: nat, lens: seq<nat>): (w': Vector)
    requires WellFormedWorkers(Xs, ys, |w|) && DrawsCover(draws, Xs, t0, lens)
    ensures |w'| == |w|
    decreases |lens|
  {
    if lens == [] then w
    else
      assert ValidDraws(draws, Xs, t0 + lens[0]);
      RunEpochs(Epoch(w, Xs, ys, lr, lam, draws, t0, lens[0]), Xs, ys, lr, lam, draws, t0 + lens[0], lens[1..])
  }

  /** Running the epochs [n] + rest is one epoch of n steps and then the epochs rest. */
  lemma RunEpochsCons(w: Vector, Xs: seq<Matrix>, ys: seq<Vector>, lr: real, lam: real,
                      draws: seq<seq<nat>>, t0: nat, n: nat, rest: seq<nat>)
    requires WellFormedWorkers(Xs, ys, |w|) && DrawsCover(draws, Xs, t0 + n, rest)
    ensures DrawsCover(draws, Xs, t0, [n] + rest) && ValidDraws(draws, Xs, t0 + n)
    ensures RunEpochs(w, Xs, ys, lr, lam, draws, t0, [n] + rest)
      == RunEpochs(Epoch(w, Xs, ys, lr, lam, draws, t0, n), Xs, ys, lr, lam, draws, t0 + n, rest)
  {
    assert ([n] + rest)[1..] == rest;
  }

  /** `epoch_len`, defaulting to `iters` when it is omitted. */
  function EpochLen(iters: nat, epochLen: Option<int>): (e: int)
    ensures epochLen.Some? ==> e == epochLen.value
    ensures epochLen.None? ==> e == iters
  {
    if epochLen.None? then iters else epochLen.value
  }

  /**
   * The loop runs without error only if every epoch takes an inner step: a
   * budget of 0 or an epoch length of at least 1. With a positive budget and
   * an epoch length below 1 the first epoch binds no worker index, so the
   * progress report after it reads an unbound local and raises.
   */
  predicate Terminates(iters: nat, epochLen: Option<int>)
  {
    iters == 0 || EpochLen(iters, epochLen) >= 1
  }

  /**
   * The weights the while loop reaches from w at global step t: nothing when
   * t has reached `iters`, otherwise an epoch of `min(E, iters - t)` inner steps
   * and the rest of the loop from the step after it.
   */
  function RunFrom(w: Vector, Xs: seq<Matrix>, ys: seq<Vector>, lr: real, lam: real,
                   draws: seq<seq<nat>>, t: nat, iters: nat, E: nat): (w': Vector)
    requires WellFormedWorkers(Xs, ys, |w|) && ValidDraws(draws, Xs, iters)
    requires t <= iters && (t == iters || E >= 1)
    ensures |w'| == |w|
    decreases iters - t
  {
    if t == iters then w
    else
      var n := Min(E, iters - t);
      RunFrom(Epoch(w, Xs, ys, lr, lam, draws, t, n), Xs, ys, lr, lam, draws, t + n, iters, E)
  }

  /** One turn of the loop: an epoch of `min(E, iters - t)` steps, then the rest from the step after it. */
  lemma RunFromStep(w: Vector, Xs: seq<Matrix>, ys: seq<Vector>, lr: real, lam: real,
                    draws: seq<seq<nat>>, t: nat, iters: nat, E: nat, n: nat)
    requires WellFormedWorkers(Xs, ys, |w|) && ValidDraws(draws, Xs, iters)
    requires t < iters && E >= 1 && n == Min(E, iters - t)
    ensures ValidDraws(draws, Xs, t + n) && 1 <= n && t + n <= iters
    ensures RunFrom(w, Xs, ys, lr, lam, draws, t, iters, E)
      == RunFrom(Epoch(w, Xs, ys, lr, lam, draws, t, n), Xs, ys, lr, lam, draws, t + n, iters, E)
  {
  }

  /** The loop runs exactly the epochs of the schedule, one after the other. */
  lemma {:induction false} RunFromFollowsSchedule(w: Vector, Xs: seq<Matrix>, ys: seq<Vector>, lr: real, lam: real,
                                                  draws: seq<seq<nat>>, t: nat, iters: nat, E: nat)
    requires WellFormedWorkers(Xs, ys, |w|) && ValidDraws(draws, Xs, iters)
    requires t <= iters && (t == iters || E >= 1)
    ensures DrawsCover(draws, Xs, t, EpochLengths(iters - t, E))
    ensures RunFrom(w, Xs, ys, lr, lam, draws, t, iters, E)
      == RunEpochs(w, Xs, ys, lr, lam, draws, t, EpochLengths(iters - t, E))
    decreases iters - t
  {
    if t < iters {
      var n := Min(E, iters - t);
      RunFromStep(w, Xs, ys, lr, lam, draws, t, iters, E, n);
      var w1 := Epoch(w, Xs, ys, lr, lam, draws, t, n);
      RunFromFollowsSchedule(w1, Xs, ys, lr, lam, draws, t + n, iters, E);
      var rest := EpochLengths(iters - (t + n), E);
      assert EpochLengths(iters - t, E) == [n] + rest;
      RunEpochsCons(w, Xs, ys, lr, lam, draws, t, n, rest);
    }
  }

  /** What `fsvrg` returns: the while loop run from w0 at step 0. */
  function FsvrgResult(w0: Vector, Xs: seq<Matrix>, ys: seq<Vector>, lr: real, lam: real,
                       iters: nat, epochLen: Option<int>, draws: seq<seq<nat>>): (w: Vector)
    requires WellFormedWorkers(Xs, ys, |w0|) && ValidDraws(draws, Xs, iters) && Terminates(iters, epochLen)
    ensures |w| == |w0|
  {
    var E: nat := if iters == 0 then 0 else EpochLen(iters, epochLen);
    RunFrom(w0, Xs, ys, lr, lam, draws, 0, iters, E)
  }

  // ---------------------------------------------------------------------------
  // The method

  /** One pass of the worker loop: `Wloc[:, i] -= lr * (g_w - g_ref + full_g)` for i in range(M). */
  method WorkerPass(Wloc: array<Vector>, w: Vector, Xs: seq<Matrix>, ys: seq<Vector>, lr: real, lam: real,
                    fullG: Vector, picks: seq<nat>)
    requires WellFormedWorkers(Xs, ys, |w|) && ValidPicks(picks, Xs) && |fullG| == |w|
    requires Wloc.Length == |Xs| && IsMatrix(Wloc[..], |w|)
    modifies Wloc
    ensures Wloc[..] == InnerStep(old(Wloc[..]), w, Xs, ys, lr, lam, fullG, picks)
  {
    ghost var W := Wloc[..];
    ghost var next := InnerStep(W, w, Xs, ys, lr, lam, fullG, picks);
    for i := 0 to Wloc.Length
      invariant forall k :: 0 <= k < i ==> Wloc[k] == next[k]
      invariant forall k :: i <= k < Wloc.Length ==> Wloc[k] == W[k]
    {
      var idx := picks[i];
      var gw := GradPoint(Wloc[i], Xs[i][idx], ys[i][idx], lam);
      var gref := GradPoint(w, Xs[i][idx], ys[i][idx], lam);
      Wloc[i] := Sub(Wloc[i], Scale(lr, Add(Sub(gw, gref), fullG)));
    }
    assert Wloc[..] == next;
  }

  /** Inner step s+1 of an epoch: one worker pass with the rows drawn at global step t0+s. */
  method InnerStepAt(Wloc: array<Vector>, w: Vector, Xs: seq<Matrix>, ys: seq<Vector>, lr: real, lam: real,
                     fullG: Vector, draws: seq<seq<nat>>, t0: nat, s: nat)
    requires WellFormedWorkers(Xs, ys, |w|) && |fullG| == |w| && ValidDraws(draws, Xs, t0 + s + 1)
    requires Wloc.Length == |Xs| && Wloc[..] == InnerSteps(w, Xs, ys, lr, lam, fullG, draws, t0, s)
    modifies Wloc
    ensures Wloc[..] == InnerSteps(w, Xs, ys, lr, lam, fullG, draws, t0, s + 1)
  {
    InnerStepsNext(w, Xs, ys, lr, lam, fullG, draws, t0, s);
    WorkerPass(Wloc, w, Xs, ys, lr, lam, fullG, draws[t0 + s]);
  }

  /**
   * The epoch's inner loop: up to n inner steps, each a worker pass followed by
   * `t += 1`, leaving the loop early once `t >= iters`.
   */
  method InnerLoop(Wloc: array<Vector>, w: Vector, Xs: seq<Matrix>, ys: seq<Vector>, lr: real, lam: real,
                   fullG: Vector, draws: seq<seq<nat>>, t0: nat, n: nat, iters: nat)
    returns (t: nat)
    requires WellFormedWorkers(Xs, ys, |w|) && |fullG| == |w| && ValidDraws(draws, Xs, t0 + n)
    requires t0 + n <= iters
    requires Wloc[..] == Replicate(w, |Xs|)
    modifies Wloc
    ensures t == t0 + n
    ensures Wloc[..] == InnerSteps(w, Xs, ys, lr, lam, fullG, draws, t0, n)
  {
    t := t0;
    var s := 0;
    while s < n
      invariant 0 <= s <= n && t == t0 + s
      invariant Wloc[..] == InnerSteps(w, Xs, ys, lr, lam, fullG, draws, t0, s)
      decreases n - s
    {
      InnerStepAt(Wloc, w, Xs, ys, lr, lam, fullG, draws, t0, s);
      s := s + 1;
      t := t + 1;
      if t >= iters {
        break;
      }
    }
  }

  /**
   * One epoch of the while loop: the full gradient at w, `Wloc = np.tile(w, (1, M))`,
   * `min(epoch_len, iters - t)` inner steps, and the column mean as the new w.
   */
  method RunEpoch(w: Vector, Xs: seq<Matrix>, ys: seq<Vector>, lr: real, lam: real,
                  draws: seq<seq<nat>>, t0: nat, n: nat, iters: nat)
    returns (w': Vector, t: nat)
    requires WellFormedWorkers(Xs, ys, |w|) && ValidDraws(draws, Xs, iters) && t0 + n <= iters
    ensures t == t0 + n
    ensures w' == Epoch(w, Xs, ys, lr, lam, draws, t0, n)
  {
    var fullG := MeanFullGrad(w, Xs, ys, lam);
    var Wloc := new Vector[|Xs|](_ => w);
    assert Wloc[..] == Replicate(w, |Xs|);
    t := InnerLoop(Wloc, w, Xs, ys, lr, lam, fullG, draws, t0, n, iters);
    w' := MeanVecs(Wloc[..], |w|);
  }

  /**
   * One turn of the while loop: an epoch of `min(E, iters - t)` inner steps
   * from step t. What the loop still has to do afterwards ends where it would
   * have ended from (w, t).
   */
  method LoopTurn(w: Vector, Xs: seq<Matrix>, ys: seq<Vector>, lr: real, lam: real,
                  draws: seq<seq<nat>>, t: nat, iters: nat, E: nat)
    returns (w': Vector, t': nat)
    requires WellFormedWorkers(Xs, ys, |w|) && ValidDraws(draws, Xs, iters) && t < iters && E >= 1
    ensures t < t' <= iters && |w'| == |w|
    ensures RunFrom(w', Xs, ys, lr, lam, draws, t', iters, E) == RunFrom(w, Xs, ys, lr, lam, draws, t, iters, E)
  {
    var n := Min(E, iters - t);
    w', t' := RunEpoch(w, Xs, ys, lr, lam, draws, t, n, iters);
    RunFromStep(w, Xs, ys, lr, lam, draws, t, iters, E, n);
  }

  /**
   * `fsvrg`: epochs of `min(epoch_len, iters - t)` inner steps until the
   * counter t reaches `iters`. An epoch length below 1 with a positive budget
   * fails on the first epoch, whose report reads the unbound worker index `i`.
   */
  method FsvrgLoop(w0: Vector, Xs: seq<Matrix>, ys: seq<Vector>, lr: real, lam: real,
                   iters: nat, epochLen: Option<int>, draws: seq<seq<nat>>)
    returns (r: Result<Vector>)
    requires WellFormedWorkers(Xs, ys, |w0|) && ValidDraws(draws, Xs, iters)
    ensures r.Ok? <==> Terminates(iters, epochLen)
    ensures r.Err? ==> r.error == UnboundLocal("i")
    ensures r.Ok? ==> r.value == FsvrgResult(w0, Xs, ys, lr, lam, iters, epochLen, draws)
  {
    if !Terminates(iters, epochLen) {
      return Err(UnboundLocal("i"));
    }
    var E: nat := if iters == 0 then 0 else EpochLen(iters, epochLen);
    var w := w0;
    var t: nat := 0;
    while t < iters
      invariant t <= iters && |w| == |w0|
      invariant RunFrom(w, Xs, ys, lr, lam, draws, t, iters, E) == RunFrom(w0, Xs, ys, lr, lam, draws, 0, iters, E)
      decreases iters - t
    {
      w, t := LoopTurn(w, Xs, ys, lr, lam, draws, t, iters, E);
    }
    r := Ok(w);
  }

  // ---------------------------------------------------------------------------
  // Epoch structure

  /**
   * At the start of an epoch every column equals w, so g_w - g_ref cancels on
   * the first inner step and every worker moves by exactly -lr full_g.
   */
  lemma FirstInnerStepCancels(w: Vector, Xs: seq<Matrix>, ys: seq<Vector>, lr: real, lam: real, fullG: Vector,
                              draws: seq<seq<nat>>, t0: nat)
    requires WellFormedWorkers(Xs, ys, |w|) && |fullG| == |w| && ValidDraws(draws, Xs, t0 + 1)
    ensures InnerSteps(w, Xs, ys, lr, lam, fullG, draws, t0, 1) == Replicate(Sub(w, Scale(lr, fullG)), |Xs|)
  {
    var W := InnerSteps(w, Xs, ys, lr, lam, fullG, draws, t0, 1);
    var v := Sub(w, Scale(lr, fullG));
    assert ValidDraws(draws, Xs, t0);
    assert InnerSteps(w, Xs, ys, lr, lam, fullG, draws, t0, 0) == Replicate(w, |Xs|);
    assert W == InnerStep(Replicate(w, |Xs|), w, Xs, ys, lr, lam, fullG, draws[t0]);
    forall i | 0 <= i < |Xs|
      ensures W[i] == v
    {
      var idx := draws[t0][i];
      var u := SvrgDirection(w, w, Xs[i][idx], ys[i][idx], lam, fullG);
      assert u == fullG;
      assert W[i] == LocalUpdate(w, w, Xs[i][idx], ys[i][idx], lr, lam, fullG);
    }
  }

  /** A one-step epoch is exactly one gradient-descent step. */
  lemma OneStepEpochIsGDStep(w: Vector, Xs: seq<Matrix>, ys: seq<Vector>, lr: real, lam: real,
                             draws: seq<seq<nat>>, t0: nat)
    requires WellFormedWorkers(Xs, ys, |w|) && ValidDraws(draws, Xs, t0 + 1)
    ensures Epoch(w, Xs, ys, lr, lam, draws, t0, 1) == GDStep(w, Xs, ys, lr, lam)
  {
    var fullG := MeanFullGrad(w, Xs, ys, lam);
    FirstInnerStepCancels(w, Xs, ys, lr, lam, fullG, draws, t0);
    MeanOfReplicate(Sub(w, Scale(lr, fullG)), |Xs|);
  }

  /** With one-step epochs, a turn of the loop is a gradient-descent step. */
  lemma RunFromUnitStep(w: Vector, Xs: seq<Matrix>, ys: seq<Vector>, lr: real, lam: real,
                        draws: seq<seq<nat>>, t: nat, iters: nat)
    requires WellFormedWorkers(Xs, ys, |w|) && ValidDraws(draws, Xs, iters) && t < iters
    ensures RunFrom(w, Xs, ys, lr, lam, draws, t, iters, 1)
      == RunFrom(GDStep(w, Xs, ys, lr, lam), Xs, ys, lr, lam, draws, t + 1, iters, 1)
  {
    OneStepEpochIsGDStep(w, Xs, ys, lr, lam, draws, t);
    RunFromStep(w, Xs, ys, lr, lam, draws, t, iters, 1, 1);
  }

  /** With epochs of one step each, the rest of the loop from step t is gradient descent. */
  lemma {:induction false} UnitEpochsAreGD(w: Vector, Xs: seq<Matrix>, ys: seq<Vector>, lr: real, lam: real,
                                           draws: seq<seq<nat>>, t: nat, iters: nat, k: nat)
    requires WellFormedWorkers(Xs, ys, |w|) && ValidDraws(draws, Xs, iters) && t + k == iters
    ensures RunFrom(w, Xs, ys, lr, lam, draws, t, iters, 1) == GDIterate(w, Xs, ys, lr, lam, k)
    decreases k
  {
    if k > 0 {
      var w1 := GDStep(w, Xs, ys, lr, lam);
      var j := k - 1;
      calc {
        RunFrom(w, Xs, ys, lr, lam, draws, t, iters, 1);
        { RunFromUnitStep(w, Xs, ys, lr, lam, draws, t, iters); }
        RunFrom(w1, Xs, ys, lr, lam, draws, t + 1, iters, 1);
        { UnitEpochsAreGD(w1, Xs, ys, lr, lam, draws, t + 1, iters, j); }
        GDIterate(w1, Xs, ys, lr, lam, j);
        { GDIterateUnroll(w, Xs, ys, lr, lam, j); }
        GDIterate(w, Xs, ys, lr, lam, j + 1);
      }
    }
  }

  /** With `epoch_len = 1` every epoch is a single cancelling step: FSVRG is gradient descent. */
  lemma FsvrgUnitEpochIsGD(w0: Vector, Xs: seq<Matrix>, ys: seq<Vector>, lr: real, lam: real,
                           iters: nat, draws: seq<seq<nat>>)
    requires WellFormedWorkers(Xs, ys, |w0|) && ValidDraws(draws, Xs, iters)
    ensures FsvrgResult(w0, Xs, ys, lr, lam, iters, Some(1), draws) == GDIterate(w0, Xs, ys, lr, lam, iters)
  {
    UnitEpochsAreGD(w0, Xs, ys, lr, lam, draws, 0, iters, iters);
  }

  /** Omitting `epoch_len` (or giving one of at least `iters`) runs a single epoch of `iters` inner steps. */
  lemma FsvrgSingleEpoch(w0: Vector, Xs: seq<Matrix>, ys: seq<Vector>, lr: real, lam: real,
                         iters: nat, epochLen: Option<int>, draws: seq<seq<nat>>)
    requires WellFormedWorkers(Xs, ys, |w0|) && ValidDraws(draws, Xs, iters) && iters >= 1
    requires epochLen.None? || epochLen.value >= iters
    ensures FsvrgResult(w0, Xs, ys, lr, lam, iters, epochLen, draws) == Epoch(w0, Xs, ys, lr, lam, draws, 0, iters)
  {
    var E: nat := EpochLen(iters, epochLen);
    RunFromStep(w0, Xs, ys, lr, lam, draws, 0, iters, E, iters);
  }

  /** With no budget nothing runs and w0 is returned. */
  lemma FsvrgNoSteps(w0: Vector, Xs: seq<Matrix>, ys: seq<Vector>, lr: real, lam: real,
                     epochLen: Option<int>, draws: seq<seq<nat>>)
    requires WellFormedWorkers(Xs, ys, |w0|) && ValidDraws(draws, Xs, 0)
    ensures FsvrgResult(w0, Xs, ys, lr, lam, 0, epochLen, draws) == w0
  {
  }
}
