# Federated hinge-loss SVM training, modelled in Dafny

This project models the training core of a federated predictive-maintenance
pipeline. Several workers each hold a batch of feature rows with ±1 labels. A
linear SVM (hinge loss plus an L2 penalty `lam |w|^2`) is trained over all of
them by one of three optimizers: full-batch gradient descent, stochastic
gradient descent, or federated SVRG (FSVRG). The worker batches come from
splitting engine units round-robin over the workers, and the trained worker
models are combined by an unweighted average.

Every numpy float is modelled as an exact `real`:

- a weight vector or column vector is a `seq<real>`;
- a matrix is a `seq` of rows of equal width;
- a per-unit dictionary is a `map<int, Matrix>`.

Python exceptions become the `Err` case of a `Result`. The random row choices
come from an oracle: `draws[t][i]` is the row that worker `i` uses at global
step `t`. Vectors are values, so `solver` cannot alter `w_init`; the source's
copy is implicit. The shuffle of unit ids is a permutation `eids` supplied by the caller.

Modules, one file each:

- `wrappers.dfy`: `Option`, `Result` and the error kinds (`UnknownMethod`,
  `EmptyStack`, `MissingKey`, `ShapeMismatch`, `BroadcastMismatch`,
  `UnboundLocal`).
- `vectors.dfy`: sums, dot products, column sums and means of vectors, with
  their algebra.
- `kernel.dfy`: `hinge_loss`, `grad_full`, `grad_point`, `predict`,
  `accuracy`, and the objectives the two sub-gradients belong to.
- `windowing.dfy`: `gen_sequences`, `gen_labels`, `running_mean`.
- `optimizers.dfy`: `gradient_descent` and `stochastic_gradient_descent`, as
  loops proved against step functions.
- `fsvrg.dfy`: `fsvrg`. The while loop on `t`, the epoch loop and the worker
  loop are methods. `Wloc` is an `array` of columns, updated in place.
- `solver.dfy`: the `solver` dispatch and its test-set evaluation.
- `federation.dfy`: `partition_workers`, `dict_to_flat_arrays`,
  `federate_average`.

## Model

| member | source | states |
|---|---|---|
| Windowing.GenSequences | training/lib.py:10-14 | No window when the table has at most L rows. Otherwise there are exactly `len(A) - L` windows. Each has L rows and ends before the last row, so the window ending at the last row is never produced. |
| Windowing.GenLabels | training/lib.py:16-18 | `len(labels) - L` labels, or none when L is at least the length. |
| Windowing.WindowsAlignWithLabels | training/lib.py:10-18 | Windows and labels come in equal numbers. Window k is rows k..k+L-1, and its label is the label of row k+L. |
| Windowing.WindowsSlide | training/lib.py:13-14 | Window k+1 is window k without its first row, plus row k+L. |
| Windowing.SliceBound | training/lib.py:8 | Python's normalisation of a slice bound against length n. It always lies in [0, n], and a negative bound counts from the end. |
| Windowing.BroadcastSub | training/lib.py:8 | numpy's `a - b` on 1-d arrays succeeds exactly when the lengths agree or one of them is 1. On equal lengths it subtracts entry by entry. |
| Windowing.DivideAll | training/lib.py:8 | Division by `float(N)` keeps the length. With N = 0 it is only applied to the empty difference, and DivideEntry gives each entry as d[j] / N otherwise. |
| Windowing.RunningMean | training/lib.py:6-8 | With N = 0 the call succeeds only on an empty x, giving an empty result. |
| Windowing.PrefixSums | training/lib.py:7 | `np.cumsum(np.insert(x, 0, 0))` has one more entry than x. Entry k is the sum of the first k entries, and PrefixSumDifference gives the sum of any slice from it. |
| Windowing.PrefixSumDifference | training/lib.py:7 | The difference of two zero-led cumulative sums is the sum of the slice between them. |
| Windowing.WindowSums | training/lib.py:6-8 | There are `len(x) - N + 1` window sums when N <= len(x), and none otherwise. RunningMeanSlices and RunningMeanWindows show `running_mean` is these sums over N. |
| Windowing.SliceDifference | training/lib.py:8 | Entry j of `c[N:] - c[:-N]` is the sum of the window x[j..j+N-1]. |
| Windowing.RunningMeanSlices | training/lib.py:6-8 | For N >= 1 the two slices have equal length, so no broadcasting occurs. The result is the window sums divided by N. |
| Windowing.RunningMeanWindows | training/lib.py:6-8 | For N >= 1 the call succeeds with `len(x) - N + 1` entries, or none when N > len(x). Entry j is the mean of x[j..j+N-1]. |
| Windowing.RunningMeanZeroWindow | training/lib.py:6-8 | With N = 0, an empty x gives an empty result. Any other x is a broadcasting error: `len(x) + 1` entries against none. |
| Kernel.HingeLoss | training/lib.py:23-25 | One entry per row. Each entry is >= 0 and >= 1 - y_i (x_i . w), and equals one of the two. It is 0 exactly when the margin y_i (x_i . w) is at least 1. |
| Kernel.HingeSubgradient | training/lib.py:35-39 | The hinge part `gh` of `grad_point` has one entry per weight. HingeSubgradientBound proves it is a sub-gradient of max(0, 1 - y x . w). |
| Kernel.GradPoint | training/lib.py:34-40 | `gh + 2 lam w` has one entry per weight. Its two branches are GradPointCases, and GradPointIsSubgradient proves it is a sub-gradient of the one-row objective. |
| Kernel.GradPointCases | training/lib.py:34-40 | `grad_point` is exactly 2 lam w when `1 - y (x . w) <= 0`. Otherwise it is -y x + 2 lam w. |
| Kernel.MaskedRows | training/lib.py:29-31 | `mask * y * X` has one row per row of X, as wide as w. PointGradientsShift shows each `grad_point` is 2 lam w minus the matching row. |
| Kernel.GradFull | training/lib.py:27-32 | `grad_full` has one entry per weight. GradFullIsMeanOfGradPoint proves it is the mean of `grad_point` over all N rows, and GradFullIsSubgradient that it is a sub-gradient of the batch objective. |
| Kernel.PointGradientsShift | training/lib.py:27-40 | Each row's `grad_point` is 2 lam w minus that row of `mask * y * X`. The mask is 1 exactly where the hinge loss is positive. |
| Kernel.GradFullIsMeanOfGradPoint | training/lib.py:27-32 | `grad_full` is the mean over all N rows of `grad_point`. The sum of -y_i x_i over the violating rows is divided by the full row count N. |
| Kernel.GradFullSingleRow | training/lib.py:27-40 | On a one-row batch, `grad_full` and `grad_point` coincide. |
| Kernel.GradFullAllSatisfied | training/lib.py:27-32 | When every margin is at least 1, `grad_full` is just 2 lam w. |
| Kernel.HingeSubgradientBound | training/lib.py:35-39 | The hinge part of `grad_point` never overestimates the hinge loss at any other point. |
| Kernel.RegulariserBound | training/lib.py:40 | For lam >= 0, 2 lam w never overestimates lam (v . v) at any other point v. |
| Kernel.GradPointIsSubgradient | training/lib.py:34-40 | For lam >= 0, `grad_point` is a sub-gradient of max(0, 1 - y x.w) + lam (w . w). |
| Kernel.SumOfObjectives | training/lib.py:23-25 | The mean hinge loss plus lam (w . w) is the mean of the one-row objectives. |
| Kernel.GradFullIsSubgradient | training/lib.py:27-32 | For lam >= 0, `grad_full` is a sub-gradient of the batch objective (mean hinge loss plus lam (w . w)) at every other point. |
| Kernel.Sign | training/lib.py:43 | `np.sign` is 1 exactly for a positive argument, -1 exactly for a negative one and 0 exactly for 0. Times its argument it gives the absolute value. |
| Kernel.Predict | training/lib.py:42-43 | One entry per row: 1 where the score x_i . w is positive, -1 where it is negative, and 0 where it is zero. Times the score, each entry gives the absolute value of the score. |
| Kernel.CountMatches | training/lib.py:46 | The count is the number of positions where prediction and label agree. It is at most n, and equals n exactly when all positions agree. |
| Kernel.Accuracy | training/lib.py:45-46 | Accuracy is the number of positions where prediction and label agree, divided by the number of rows. It lies in [0, 1], and is 1 exactly when every prediction equals its label. |
| Kernel.AccuracyOneIffPositiveMargins | training/lib.py:42-46 | Against ±1 labels, accuracy is 1 exactly when every margin is strictly positive. A row scored 0 predicts 0, which is a miss. |
| Kernel.ZeroLossMeansPerfectAccuracy | training/lib.py:23-46 | Zero hinge loss on every row gives accuracy 1 against ±1 labels. |
| Optimizers.MeanFullGrad | training/lib.py:54 | `sum(grad_full(...) for i in range(M)) / M` has one entry per weight. By MeanVecsEntry its entry j is the mean of the workers' `grad_full` entries j. |
| Optimizers.GDStep | training/lib.py:54-55 | The update `w - lr * G` keeps the length of w. GDFixedPoint shows a w with G = 0 is kept. |
| Optimizers.GDIterate | training/lib.py:53-55 | The weights after k steps keep the length of w. GDComposition and GDIterateUnroll show that step counts compose; GradientDescent is proved equal to it. |
| Optimizers.GradientDescent | training/lib.py:51-56 | The loop returns `GDIterate(w0, iters)`: exactly `iters` updates w <- w - lr * (mean over the M workers of `grad_full`). With iters = 0 it returns w0. |
| Optimizers.GDComposition | training/lib.py:53-55 | a + b steps are a steps followed by b steps. |
| Optimizers.GDIterateUnroll | training/lib.py:53-55 | k + 1 steps are one step followed by k steps. |
| Optimizers.GDFixedPoint | training/lib.py:53-55 | A point where the averaged gradient vanishes is kept by any number of steps. |
| Optimizers.SampleGradients | training/lib.py:61-64 | `grads` holds one `grad_point` per worker, as wide as w. SampleGradientUnbiased shows worker i's entry is the `grad_point` of its drawn row, and that averaging it over every row the worker could draw gives its `grad_full`. |
| Optimizers.SGDStep | training/lib.py:65-66 | The update `w - lr * sum(grads) / M` keeps the length of w. SgdUpdate is proved equal to it. |
| Optimizers.SGDIterate | training/lib.py:60-66 | The weights after k SGD steps keep the length of w. StochasticGradientDescent is proved equal to it, and SGDOnSingleRowsIsGD shows it is GDIterate on one-row batches. |
| Optimizers.SgdUpdate | training/lib.py:61-66 | The list `grads` collects one `grad_point` per worker, in worker order, at the drawn row. The result is `SGDStep`: w - lr * mean(grads). |
| Optimizers.SgdStepAt | training/lib.py:60-66 | Step k taken from the weights after k steps gives the weights after k + 1 steps. |
| Optimizers.StochasticGradientDescent | training/lib.py:58-67 | The loop returns `SGDIterate(w0, draws, iters)`: exactly `iters` updates, step t using worker i's row `draws[t][i]`, which lies in [0, rows_i). |
| Optimizers.SampleGradientUnbiased | training/lib.py:58-67 | Per worker, the mean of `grad_point` over every row it could draw is its `grad_full`. The SGD gradient of worker i is `grad_point` at the drawn row. |
| Optimizers.SGDOnSingleRowsIsGD | training/lib.py:51-67 | When every worker holds one row, SGD and gradient descent give the same weights after any number of steps. |
| Fsvrg.InnerStep | training/lib.py:88-94 | One pass over the workers gives one column per worker, as wide as w. WorkerPass is proved to perform it in place, and FirstInnerStepCancels gives its value at an epoch start. |
| Fsvrg.InnerSteps | training/lib.py:86-96 | After s inner steps there is still one column per worker, as wide as w. InnerStepsNext unfolds it and InnerLoop is proved equal to it. |
| Fsvrg.Epoch | training/lib.py:85-97 | An epoch keeps the length of w. RunEpoch is proved equal to it, and OneStepEpochIsGDStep shows a one-step epoch is a GD step. |
| Fsvrg.InnerStepsNext | training/lib.py:87-95 | Inner step s + 1 applies one worker pass with the rows drawn at global step t0 + s. |
| Fsvrg.EpochLengths | training/lib.py:84-96 | The epoch lengths `min(epoch_len, iters - t)` add up to the remaining budget, and each lies in [1, epoch_len]. |
| Fsvrg.EpochLengthsFull | training/lib.py:87 | Every epoch except the last runs exactly `epoch_len` inner steps. |
| Fsvrg.SingleEpoch | training/lib.py:81-87 | With an epoch length of at least `iters`, the schedule is a single epoch of `iters` steps. |
| Fsvrg.RunEpochs | training/lib.py:84-97 | Running a list of epochs keeps the length of w. RunEpochsCons unfolds it, and RunFromFollowsSchedule shows the loop runs EpochLengths through it. |
| Fsvrg.RunEpochsCons | training/lib.py:84-97 | Running the epochs [n] + rest is one epoch of n steps followed by the epochs rest. |
| Fsvrg.EpochLen | training/lib.py:81-82 | The given `epoch_len`, or `iters` when it is omitted. FsvrgSingleEpoch shows the default gives a single epoch. |
| Fsvrg.RunFrom | training/lib.py:84-97 | The while loop's result from step t keeps the length of w. RunFromStep and RunFromFollowsSchedule show it runs the schedule's epochs, and UnitEpochsAreGD relates it to GD. |
| Fsvrg.FsvrgResult | training/lib.py:69-100 | What `fsvrg` returns keeps the length of w. FsvrgLoop is proved equal to it; FsvrgUnitEpochIsGD, FsvrgSingleEpoch and FsvrgNoSteps state its special cases. |
| Fsvrg.RunFromStep | training/lib.py:84-97 | One turn of the while loop at t < iters runs `min(E, iters - t)` >= 1 inner steps, and the loop continues from t + n <= iters. |
| Fsvrg.RunFromFollowsSchedule | training/lib.py:83-97 | From any t <= iters, the while loop runs exactly the epochs of the schedule `EpochLengths(iters - t, E)`. Their steps end with t = iters. |
| Fsvrg.WorkerPass | training/lib.py:88-94 | One pass of the worker loop updates column i of `Wloc` with worker i's drawn row only, in place, giving `InnerStep` of the old columns. |
| Fsvrg.InnerStepAt | training/lib.py:88-95 | A worker pass after s inner steps gives the columns after s + 1 inner steps. |
| Fsvrg.InnerLoop | training/lib.py:87-96 | The inner loop ends with t = t0 + n, one increment per inner step, and `Wloc` holds `InnerSteps(n)`. |
| Fsvrg.RunEpoch | training/lib.py:85-97 | One epoch takes the full gradient at w and tiles w into `Wloc`. It runs n inner steps, after which the new w is the column mean of `Wloc`. |
| Fsvrg.LoopTurn | training/lib.py:84-97 | A turn of the while loop strictly increases t without passing `iters`, and leaves the final result of the loop unchanged. |
| Fsvrg.FsvrgLoop | training/lib.py:69-100 | `fsvrg` succeeds exactly when `iters` is 0 or the epoch length is at least 1, and then returns `FsvrgResult`, the weights of the epoch schedule run from w0. Otherwise the first epoch takes no inner step and its report reads the unbound index `i`: `UnboundLocal("i")`. |
| Fsvrg.FirstInnerStepCancels | training/lib.py:86-94 | At an epoch start every column equals w, so g_w - g_ref cancels. After the first inner step, every column is w - lr * full_g. |
| Fsvrg.OneStepEpochIsGDStep | training/lib.py:85-97 | A one-step epoch is exactly one gradient-descent step. |
| Fsvrg.RunFromUnitStep | training/lib.py:84-97 | With `epoch_len = 1`, a turn of the loop is one gradient-descent step. |
| Fsvrg.UnitEpochsAreGD | training/lib.py:84-97 | With `epoch_len = 1`, the rest of the loop from step t is `iters - t` gradient-descent steps. |
| Fsvrg.FsvrgUnitEpochIsGD | training/lib.py:69-100 | `fsvrg` with `epoch_len = 1` returns the same weights as `gradient_descent`. |
| Fsvrg.FsvrgSingleEpoch | training/lib.py:81-97 | Without `epoch_len`, or with one of at least `iters`, `fsvrg` runs a single epoch of `iters` inner steps. |
| Fsvrg.FsvrgNoSteps | training/lib.py:83-84 | With iters = 0, `fsvrg` returns w unchanged. |
| Solver.Solve | training/lib.py:104-126 | Succeeds exactly when training succeeds ('gd', 'sgd', or 'fsvrg' with an epoch length that makes progress) and the test set can be evaluated: X_test has as many columns as w_init has entries, and y_test has as many entries as X_test has rows, or one of the two has a single entry. On success it returns the chosen optimizer's result. Otherwise the error is, in the source's order: `UnknownMethod(tag)` before any optimizer runs, `fsvrg`'s `UnboundLocal("i")`, then `ShapeMismatch` from `X_test @ w`, then `BroadcastMismatch` from comparing or multiplying by y_test. |
| Federation.Concat | main.py:16-17 | The stack has as many rows as its parts together. |
| Federation.RowOrigin | main.py:16-17 | Row r of a stack is row j of part k, for the (k, j) it names. |
| Federation.RowOriginByLengths | main.py:16-17 | Two stacks whose parts have the same row counts take row r from the same (part, row). |
| Federation.VStack | main.py:16-17 | `np.vstack` fails with `EmptyStack` on an empty list and with `ShapeMismatch` on rows of differing widths. Otherwise it is the concatenation. |
| Federation.Lookup | main.py:16-17 | `[D[e] for e in g]` has one matrix per id. StridedLookupLengths gives its row counts, and RowOrigin says where each stacked row comes from. |
| Federation.FirstMissing | main.py:17 | The first id of g that is not a key: None exactly when all ids are keys. |
| Federation.StackGroup | main.py:16-17 | A group's stacks succeed exactly when the group is non-empty, its feature rows share a width, every id has labels, and its label rows share a width. Error order: X stacking (`EmptyStack` or `ShapeMismatch`), then `MissingKey` of the first id without labels, then `ShapeMismatch` from Y stacking. |
| Federation.StackedRowsAligned | main.py:14-17 | When each unit has as many label rows as feature rows, a group's two stacks have equal row counts, and row r of both comes from the same row of the same unit. |
| Federation.StackGroupAligned | main.py:14-17 | A successful stack of such a group satisfies `RowsAligned`. |
| Federation.Strided | main.py:13 | `s[i::n]` is empty from i >= len(s) on, and holds only entries of s. |
| Federation.StridedEntry | main.py:13 | Entry k of `s[i::n]` is `s[i + k n]`. |
| Federation.StridedCovers | main.py:13 | Every position i + k n < len(s) is reached by `s[i::n]`. |
| Federation.Groups | main.py:13 | There are n groups (none when n <= 0), holding only ids from the list. |
| Federation.GroupPlacement | main.py:13 | Shuffled position p lands in group p mod n, at place p div n. |
| Federation.PositionUnique | main.py:13 | Two positions with residues below n coincide only when both residue and quotient agree. |
| Federation.StridedEntriesDistinct | main.py:13 | With distinct ids, entries of two groups are equal only at the same group and place. |
| Federation.GroupsDisjoint | main.py:13 | With distinct ids, no id lies in two groups or twice in one. |
| Federation.StridedSizes | main.py:13 | For residues i < j < n, `s[j::n]` is no longer than `s[i::n]` and at most one shorter. |
| Federation.GroupSizesBalanced | main.py:13 | Group sizes never increase along the list and differ by at most one. |
| Federation.GroupTotalsSum | main.py:13-17 | Splitting row counts round-robin into n groups keeps their total. |
| Federation.StridedLookupLengths | main.py:13-16 | The row counts of a group's units are the matching strided slice of all units' row counts. |
| Federation.StackAll | main.py:15-18 | On success there is one X stack and one Y stack per group. StackAllOk, StackAllEntry and StackAllFirstError give its success condition, entries and error. |
| Federation.StackAllFrom | main.py:15-17 | Stacking from group i on is group i's outcome, followed by the groups after it. |
| Federation.StackAllOk | main.py:15-17 | Stacking all groups succeeds exactly when every group stacks. |
| Federation.StackAllEntry | main.py:15-17 | After success, worker i holds the stacks of group i. |
| Federation.StackAllFirstError | main.py:15-17 | When the groups before group i stack, the error of group i is the error of the call. |
| Federation.Partition | main.py:10-18 | `partition_workers`: n <= 0 gives two empty lists, and on success each list has n entries. PartitionOutcome, PartitionRowsAligned and PartitionKeepsRows give the rest; PartitionWorkers is proved equal to it. |
| Federation.PartitionWorkers | main.py:10-18 | The loop over the groups, with its appends to `Xw` and `Yw` and its first failure, gives `Partition`. |
| Federation.PartitionOutcome | main.py:10-18 | With n <= 0 the call returns two empty lists. It succeeds exactly when every group stacks, and then worker i holds the stacks of group i, which is non-empty and knows its labels. |
| Federation.PartitionTooManyWorkers | main.py:13-16 | More workers than ids leaves a group empty and the call fails. When the groups before it stack, the failure is the empty stack itself. |
| Federation.PartitionRowsAligned | main.py:14-17 | With as many label rows as feature rows per unit, worker i's X and Y stacks satisfy `RowsAligned` for group i. |
| Federation.PartitionKeepsRows | main.py:13-17 | The workers hold as many feature rows as all units together: none dropped, none duplicated. |
| Federation.MinOf | main.py:21 | A non-empty id set has a least element. |
| Federation.Least | main.py:21 | The least element of a non-empty id set. |
| Federation.SortedKeys | main.py:21 | `sorted(X_dic)` holds exactly the keys, strictly ascending, each once. |
| Federation.FlatArrays | main.py:20-24 | No units is an empty-stack error. On success, X and Y are the stacks of all units in ascending id order, and every unit has labels. |
| Federation.FlatArraysAligned | main.py:20-24 | With as many label rows as feature rows per unit, the flat arrays satisfy `RowsAligned` for the sorted ids: total rows equal the sum over units, and row r of X and Y come from the same unit row. |
| Federation.FederateAverage | main.py:26-30 | An empty list or models of differing lengths fail. Otherwise entry j is the unweighted mean of the models' entries j. |
| Federation.FederateAverageOfCopies | main.py:26-30 | Averaging k copies of one model gives that model. |
| Federation.FederateAverageOfZeroSum | main.py:26-30 | Models whose entries add up to zero, position by position, average to the zero vector. |
| Federation.FederateAverageReorder | main.py:26-30 | Reordering the models changes neither the average nor the error. |
| Vectors.MeanVecsEntry | training/lib.py:97 | Entry j of the mean of vectors is the mean of their entries j (`Wloc.mean(axis=1)`, `sum(...) / M`). |
| Vectors.MeanOfReplicate | training/lib.py:86-97 | The mean of m copies of w is w, as for an untouched `np.tile(w, (1, M))`. |
| Vectors.MeanVecsPermutation | main.py:28-29 | The mean of vectors does not depend on their order. |

## Left out

- Floating point is not modelled. Rounding, NaN, infinities and the float32 casts are absent, and so are convergence claims such as "reaches accuracy 1.0". Numbers are exact reals.
- Randomness (`np.random.default_rng`, `np.random.randint`, `random.shuffle`) is replaced by the row oracle `draws` and the caller's permutation `eids`. Seeds and distributions are not modelled.
- Optimizers.ValidDraws: the oracle must be in range at every position it holds, not only at the first `iters`. The caller supplies the draws, so this asks nothing the source could use.
- Fsvrg.FsvrgNoSteps: it also asks for a well-formed oracle, although no draw is used when iters = 0.
- The prints in `fsvrg` and `solver` are diagnostics only and are not modelled (training/lib.py:98-99, 126). This includes `update_dir`, which exists only for the print. The one effect of these prints that is modelled is the failure of `fsvrg`'s report when no inner step has bound `i`.
- Solver.Solve: the values of the test-set accuracy and hinge-loss sum are only printed, so they are not computed. Only the ValueError these computations raise on a mis-shaped test set is modelled (training/lib.py:124-125). A test matrix with zero rows and another declared width fails in numpy but not in the model, as with Federation.VStack.
- Kernel.Accuracy and Kernel.GradFull: an empty batch (NaN, or division by zero in numpy) is excluded by a precondition. Optimizers.WellFormedWorkers likewise requires at least one worker and a non-empty batch for each. It also requires each batch to have |w| columns and exactly one label per row. On other widths numpy raises in `X @ w` (training/lib.py:24), and a single label would be broadcast over all rows. Worker batches are stacked from the same units for X and Y, so both hold the same row counts.
- Fsvrg.FsvrgLoop: with iters > 0 and `epoch_len` < 1, the source computes the first epoch's full gradient before its report fails. The model returns `UnboundLocal("i")` without computing it, since that value is never seen.
- Optimizers.GradientDescent, Optimizers.StochasticGradientDescent, Fsvrg.FsvrgLoop and Solver.Solve: the iteration count is a natural number. A negative `iters` behaves like 0 in the source.
- Federation.VStack: the width check is made row by row. numpy compares the column counts of the arrays, so a unit with zero rows and a different declared width fails in numpy but not in the model.
- Federation.FederateAverage: models are flat vectors (`m.flatten()`), and the result is a vector rather than a d x 1 column.
- Column vectors of shape (d, 1) and label columns of shape (n, 1) are flat sequences throughout. Label rows per unit (`Y_dic`) are matrices.
- Unit ids are integers, so `sorted` is the integer order.
- training/data_utils.py is not part of this model: CSV parsing, pandas grouping and sklearn scaling.
- ipfs_upload.py, others/encrypt.py and smart_contract/ are not part of this model: HTTP, Web3, RSA and deployment scripts.
- The `main()` orchestration in main.py:32-107 is not part of this model.
