/**
 * Sequence utilities: sliding windows over the rows of a feature table, the
 * labels aligned with them, and the cumulative-sum running mean.
 */
module Windowing {
  import opened Wrappers
  import opened Vectors

  // ---------------------------------------------------------------------------
  // Sliding windows and aligned labels

  /**
   * `gen_sequences`: one window per start in `range(len(A) - L)`, window k
   * being rows k .. k+L-1. The window that ends at the last row is not produced.
   */
  function GenSequences(A: seq<Vector>, L: nat): (r: seq<seq<Vector>>)
    ensures |A| <= L ==> r == []
    ensures L < |A| ==> |r| + L == |A|
    ensures forall k :: 0 <= k < |r| ==> |r[k]| == L && k + L < |A|
  {
    if |A| <= L then []
    else seq(|A| - L, k requires 0 <= k < |A| - L => A[k..k + L])
  }

  /** `gen_labels`: the label column with its first `L` rows dropped. */
  function GenLabels(labels: seq<real>, L: nat): (r: seq<real>)
    ensures |r| == if L < |labels| then |labels| - L else 0
  {
    if L < |labels| then labels[L..] else []
  }

  /**
   * Windows and labels drawn from the same table line up: there are as many
   * labels as windows, and window k (rows k .. k+L-1) is paired with the label
   * of row k+L, the row right after the window.
   */
  lemma WindowsAlignWithLabels(A: seq<Vector>, labels: seq<real>, L: nat)
    requires |labels| == |A|
    ensures |GenSequences(A, L)| == |GenLabels(labels, L)|
    ensures forall k :: 0 <= k < |GenSequences(A, L)| ==>
      GenSequences(A, L)[k] == A[k..k + L] && GenLabels(labels, L)[k] == labels[k + L]
  {
  }

  /** Consecutive windows slide by one row. */
  lemma WindowsSlide(A: seq<Vector>, L: nat, k: nat)
    requires 1 <= L && k + 1 < |GenSequences(A, L)|
    ensures GenSequences(A, L)[k + 1] == GenSequences(A, L)[k][1..] + [A[k + L]]
  {
    var r := GenSequences(A, L);
    assert r[k] == A[k..k + L] && r[k + 1] == A[k + 1..k + 1 + L];
  }

  // ---------------------------------------------------------------------------
  // Running mean

  /** A Python slice bound `i` normalised against a sequence of length `n`. */
  function SliceBound(i: int, n: nat): (b: nat)
    ensures b <= n
    ensures 0 <= i ==> b == if i < n then i else n
    ensures i < 0 ==> b == if n + i > 0 then n + i else 0
  {
    if i < 0 then (if n + i > 0 then n + i else 0)
    else if i < n then i else n
  }

  /** `np.cumsum(np.insert(x, 0, 0))`: entry k is the sum of the first k entries of x. */
  function PrefixSums(x: seq<real>): (c: seq<real>)
    ensures |c| == |x| + 1
  {
    seq(|x| + 1, k requires 0 <= k <= |x| => Sum(x[..k]))
  }

  /** Elementwise `a - b` under numpy broadcasting of two 1-d arrays. */
  function BroadcastSub(a: seq<real>, b: seq<real>): (r: Result<seq<real>>)
    ensures r.Ok? <==> |a| == |b| || |a| == 1 || |b| == 1
    ensures r.Ok? && |a| == |b| ==> r.value == seq(|a|, j requires 0 <= j < |a| => a[j] - b[j])
  {
    if |a| == |b| then Ok(seq(|a|, j requires 0 <= j < |a| => a[j] - b[j]))
    else if |a| == 1 then Ok(seq(|b|, j requires 0 <= j < |b| => a[0] - b[j]))
    else if |b| == 1 then Ok(seq(|a|, j requires 0 <= j < |a| => a[j] - b[0]))
    else Err(BroadcastMismatch)
  }

  /** `d / float(N)`; with N = 0 only the empty array is ever divided. */
  function DivideAll(d: seq<real>, N: int): (r: seq<real>)
    requires N != 0 || d == []
    ensures |r| == |d|
  {
    if N == 0 then [] else seq(|d|, j requires 0 <= j < |d| => d[j] / (N as real))
  }

  lemma DivideEntry(d: seq<real>, N: int, j: nat)
    requires N != 0 && j < |d|
    ensures DivideAll(d, N)[j] == d[j] / (N as real)
  {
  }

  /** `running_mean`: `(c[N:] - c[:-N]) / float(N)` over the zero-led cumulative sums c. */
  function RunningMean(x: seq<real>, N: int): (r: Result<seq<real>>)
    ensures N == 0 ==> (r.Ok? <==> x == [])
    ensures r.Ok? && N == 0 ==> r.value == []
  {
    var c := PrefixSums(x);
    var a, b := c[SliceBound(N, |c|)..], c[..SliceBound(-N, |c|)];
    var d := BroadcastSub(a, b);
    if d.Err? then Err(d.error) else Ok(DivideAll(d.value, N))
  }

  /** The sum of a contiguous slice is a difference of prefix sums. */
  lemma PrefixSumDifference(x: seq<real>, i: nat, j: nat)
    requires i <= j <= |x|
    ensures PrefixSums(x)[j] - PrefixSums(x)[i] == Sum(x[i..j])
  {
    assert x[..j] == x[..i] + x[i..j];
    SumConcat(x[..i], x[i..j]);
  }

  /** The sums of the windows of N consecutive entries, in order of their first entry. */
  function WindowSums(x: seq<real>, N: nat): (s: seq<real>)
    requires 1 <= N
    ensures |s| == if N <= |x| then |x| - N + 1 else 0
  {
    if N <= |x| then seq(|x| - N + 1, j requires 0 <= j <= |x| - N => Sum(x[j..j + N])) else []
  }

  /** Entry j of the difference of the two slices is a window sum. */
  lemma SliceDifference(x: seq<real>, N: int, j: nat)
    requires N >= 1 && j + N <= |x|
    ensures PrefixSums(x)[N..][j] - PrefixSums(x)[j] == Sum(x[j..j + N])
  {
    PrefixSumDifference(x, j, j + N);
  }

  /**
   * For N >= 1 the slices `c[N:]` and `c[:-N]` have equal length, so no
   * broadcasting happens and their difference holds the window sums.
   */
  lemma RunningMeanSlices(x: seq<real>, N: int)
    requires N >= 1
    ensures RunningMean(x, N) == Ok(DivideAll(WindowSums(x, N), N))
  {
    var c := PrefixSums(x);
    var a, b := c[SliceBound(N, |c|)..], c[..SliceBound(-N, |c|)];
    var s := WindowSums(x, N);
    assert |a| == |b| == |s|;
    forall j | 0 <= j < |s|
      ensures a[j] - b[j] == s[j]
    {
      SliceDifference(x, N, j);
    }
    assert BroadcastSub(a, b).value == s;
  }

  /**
   * For a window length N >= 1, the running mean has |x| - N + 1 entries (none
   * when N > |x|), and entry j is the mean of the window x[j .. j+N-1].
   */
  lemma RunningMeanWindows(x: seq<real>, N: int)
    requires N >= 1
    ensures RunningMean(x, N).Ok?
    ensures |RunningMean(x, N).value| == if N <= |x| then |x| - N + 1 else 0
    ensures forall j :: 0 <= j < |RunningMean(x, N).value| ==>
      j + N <= |x| && RunningMean(x, N).value[j] == Sum(x[j..j + N]) / (N as real)
  {
    RunningMeanSlices(x, N);
  }

  /** With a window length of 0 numpy broadcasts |x|+1 entries against none. */
  lemma RunningMeanZeroWindow(x: seq<real>)
    ensures RunningMean(x, 0) == if x == [] then Ok([]) else Err(BroadcastMismatch)
  {
  }
}
