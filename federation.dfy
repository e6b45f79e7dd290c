/**
 * The federation side of the experiment: splitting the shuffled unit ids
 * round-robin over the workers and stacking each worker's rows, flattening
 * all units in ascending id order, and averaging the workers' models.
 *
 * A unit's feature rows and label rows are matrices keyed by its id; the
 * shuffle of the ids is an arbitrary permutation handed in by the caller.
 */
module Federation {
  import opened Wrappers
  import opened Vectors

  // ---------------------------------------------------------------------------
  // Stacking rows (np.vstack)

  /** The row count of each matrix. */
  function Lengths(ms: seq<Matrix>): (ls: seq<nat>)
    ensures |ls| == |ms|
  {
    seq(|ms|, k requires 0 <= k < |ms| => |ms[k]|)
  }

  /** The rows of the matrices, one matrix after another; it has as many rows as they have together. */
  function Concat(ms: seq<Matrix>): (rows: Matrix)
    ensures |rows| == SumNat(Lengths(ms))
  {
    if ms == [] then []
    else
      assert Lengths(ms)[1..] == Lengths(ms[1..]);
      ms[0] + Concat(ms[1..])
  }

  /** Which matrix, and which row of it, row r of the stack comes from. */
  function RowOrigin(ms: seq<Matrix>, r: nat): (o: (nat, nat))
    requires r < |Concat(ms)|
    ensures o.0 < |ms| && o.1 < |ms[o.0]| && Concat(ms)[r] == ms[o.0][o.1]
  {
    if r < |ms[0]| then (0, r)
    else
      var o := RowOrigin(ms[1..], r - |ms[0]|);
      (o.0 + 1, o.1)
  }

  /** Stacks whose parts have the same row counts match row for row. */
  lemma {:induction false} RowOriginByLengths(ms: seq<Matrix>, ns: seq<Matrix>, r: nat)
    requires Lengths(ms) == Lengths(ns) && r < |Concat(ms)|
    ensures r < |Concat(ns)| && RowOrigin(ms, r) == RowOrigin(ns, r)
  {
    assert |ms[0]| == Lengths(ms)[0] == Lengths(ns)[0] == |ns[0]|;
    if r >= |ms[0]| {
      assert Lengths(ms[1..]) == Lengths(ms)[1..] == Lengths(ns)[1..] == Lengths(ns[1..]);
      RowOriginByLengths(ms[1..], ns[1..], r - |ms[0]|);
    }
  }

  /** Every row has the width of the first. */
  predicate Uniform(rows: Matrix)
  {
    forall k :: 0 <= k < |rows| ==> |rows[k]| == |rows[0]|
  }

  /** `np.vstack`: fails on an empty list and on rows of differing widths. */
  function VStack(ms: seq<Matrix>): (r: Result<Matrix>)
    ensures ms == [] ==> r == Err(EmptyStack)
    ensures r.Ok? <==> ms != [] && Uniform(Concat(ms))
    ensures ms != [] && !Uniform(Concat(ms)) ==> r == Err(ShapeMismatch)
    ensures r.Ok? ==> r.value == Concat(ms) && |r.value| == SumNat(Lengths(ms))
  {
    if ms == [] then Err(EmptyStack)
    else if !Uniform(Concat(ms)) then Err(ShapeMismatch)
    else Ok(Concat(ms))
  }

  /** `[D[e] for e in g]` once every id is known to be a key. */
  function Lookup(g: seq<int>, D: map<int, Matrix>): (ms: seq<Matrix>)
    requires forall k :: 0 <= k < |g| ==> g[k] in D
    ensures |ms| == |g|
  {
    seq(|g|, k requires 0 <= k < |g| => D[g[k]])
  }

  /** The position of the first id of g that is not a key of D: where `[D[e] for e in g]` raises. */
  function FirstMissing(g: seq<int>, D: map<int, Matrix>): (m: Option<nat>)
    ensures m.None? <==> forall k :: 0 <= k < |g| ==> g[k] in D
    ensures m.Some? ==> m.value < |g| && g[m.value] !in D && forall l :: 0 <= l < m.value ==> g[l] in D
  {
    if g == [] then None
    else if g[0] !in D then Some(0)
    else
      match FirstMissing(g[1..], D)
      case None => None
      case Some(k) => Some(k + 1)
  }

  /**
   * Stack the feature rows and then the label rows of the units g, in the
   * order of g: an empty g, a unit without labels or rows of differing widths
   * fail, in the order the stacking meets them.
   */
  function StackGroup(g: seq<int>, X: map<int, Matrix>, Y: map<int, Matrix>): (r: Result<(Matrix, Matrix)>)
    requires forall k :: 0 <= k < |g| ==> g[k] in X
    ensures g == [] ==> r == Err(EmptyStack)
    ensures r.Ok? ==> FirstMissing(g, Y).None?
    ensures r.Ok? ==> r.value.0 == Concat(Lookup(g, X)) && r.value.1 == Concat(Lookup(g, Y))
    ensures r.Ok? <==> g != [] && Uniform(Concat(Lookup(g, X)))
                        && FirstMissing(g, Y).None? && Uniform(Concat(Lookup(g, Y)))
    ensures g != [] && Uniform(Concat(Lookup(g, X))) && FirstMissing(g, Y).Some? ==>
              r == Err(MissingKey(g[FirstMissing(g, Y).value]))
    ensures g != [] && !Uniform(Concat(Lookup(g, X))) ==> r == Err(ShapeMismatch)
    ensures g != [] && Uniform(Concat(Lookup(g, X))) && FirstMissing(g, Y).None? && !Uniform(Concat(Lookup(g, Y))) ==>
              r == Err(ShapeMismatch)
  {
    var xs := VStack(Lookup(g, X));
    if xs.Err? then Err(xs.error)
    else
      match FirstMissing(g, Y)
      case Some(k) => Err(MissingKey(g[k]))
      case None =>
        var ys := VStack(Lookup(g, Y));
        if ys.Err? then Err(ys.error) else Ok((xs.value, ys.value))
  }

  /** Stacking the units of a group with the same row counts in X and Y gives aligned stacks. */
  lemma StackedRowsAligned(g: seq<int>, X: map<int, Matrix>, Y: map<int, Matrix>)
    requires forall k :: 0 <= k < |g| ==> g[k] in X && g[k] in Y && |X[g[k]]| == |Y[g[k]]|
    ensures |Concat(Lookup(g, X))| == |Concat(Lookup(g, Y))|
    ensures forall r :: 0 <= r < |Concat(Lookup(g, X))| ==>
      RowOrigin(Lookup(g, X), r) == RowOrigin(Lookup(g, Y), r)
      && Concat(Lookup(g, X))[r] == X[g[RowOrigin(Lookup(g, X), r).0]][RowOrigin(Lookup(g, X), r).1]
      && Concat(Lookup(g, Y))[r] == Y[g[RowOrigin(Lookup(g, X), r).0]][RowOrigin(Lookup(g, X), r).1]
  {
    var ms, ns := Lookup(g, X), Lookup(g, Y);
    assert Lengths(ms) == Lengths(ns);
    forall r | 0 <= r < |Concat(ms)|
      ensures r < |Concat(ns)| && RowOrigin(ms, r) == RowOrigin(ns, r)
    {
      RowOriginByLengths(ms, ns, r);
    }
  }

  /**
   * fx and fy are the feature and label stacks of the units g, aligned: both
   * have as many rows as the units together, and row r of each comes from
   * the same row of the same unit.
   */
  ghost predicate RowsAligned(g: seq<int>, X: map<int, Matrix>, Y: map<int, Matrix>, fx: Matrix, fy: Matrix)
    requires forall k :: 0 <= k < |g| ==> g[k] in X
  {
    |fx| == |fy| == |Concat(Lookup(g, X))|
    && forall r :: 0 <= r < |fx| ==>
      var (k, j) := RowOrigin(Lookup(g, X), r);
      k < |g| && g[k] in Y && j < |X[g[k]]| && j < |Y[g[k]]|
      && fx[r] == X[g[k]][j] && fy[r] == Y[g[k]][j]
  }

  /** A successful stack of a group whose units have as many label rows as feature rows is aligned. */
  lemma StackGroupAligned(g: seq<int>, X: map<int, Matrix>, Y: map<int, Matrix>)
    requires forall k :: 0 <= k < |g| ==> g[k] in X
    requires StackGroup(g, X, Y).Ok?
    requires forall e :: e in X && e in Y ==> |X[e]| == |Y[e]|
    ensures RowsAligned(g, X, Y, StackGroup(g, X, Y).value.0, StackGroup(g, X, Y).value.1)
  {
    var missing := FirstMissing(g, Y);
    assert forall k :: 0 <= k < |g| ==> g[k] in Y;
    forall k | 0 <= k < |g|
      ensures |X[g[k]]| == |Y[g[k]]|
    {
      var e := g[k];
      assert e in X && e in Y;
      assert |X[e]| == |Y[e]|;
    }
    StackedRowsAligned(g, X, Y);
  }

  // ---------------------------------------------------------------------------
  // Round-robin groups (`eids[i::n]`)

  /** `s[i::n]`: the entries at i, i + n, i + 2n, ... that exist. */
  function Strided<T>(s: seq<T>, i: nat, n: nat): (r: seq<T>)
    requires n >= 1
    ensures i >= |s| ==> r == []
    ensures forall k :: 0 <= k < |r| ==> r[k] in s
    decreases |s| - i
  {
    if i >= |s| then [] else [s[i]] + Strided(s, i + n, n)
  }

  /** Entry k of `s[i::n]` is entry i + k n of s. */
  lemma {:induction false} StridedEntry<T>(s: seq<T>, i: nat, n: nat, k: nat)
    requires n >= 1 && k < |Strided(s, i, n)|
    ensures i + k * n < |s| && Strided(s, i, n)[k] == s[i + k * n]
    decreases k
  {
    if k > 0 {
      StridedEntry(s, i + n, n, k - 1);
      assert i + n + (k - 1) * n == i + k * n;
    }
  }

  /** Every entry i + k n of s is reached: `s[i::n]` has more than k entries. */
  lemma {:induction false} StridedCovers<T>(s: seq<T>, i: nat, n: nat, k: nat)
    requires n >= 1 && i + k * n < |s|
    ensures k < |Strided(s, i, n)|
    decreases k
  {
    if k > 0 {
      assert i + n + (k - 1) * n == i + k * n;
      StridedCovers(s, i + n, n, k - 1);
    }
  }

  /** Past the first n entries, `s[i::n]` continues as `s[n:][i::n]`. */
  lemma {:induction false} StridedShift<T>(s: seq<T>, i: nat, n: nat)
    requires n >= 1 && n <= |s|
    ensures Strided(s, i + n, n) == Strided(s[n..], i, n)
    decreases |s| - i
  {
    if i + n < |s| {
      StridedShift(s, i + n, n);
    }
  }

  /** The list of groups `[eids[i::n] for i in range(n)]`; none at all when n <= 0. */
  function Groups<T>(s: seq<T>, n: int): (gs: seq<seq<T>>)
    ensures |gs| == if n <= 0 then 0 else n
    ensures forall i :: 0 <= i < |gs| ==> forall k :: 0 <= k < |gs[i]| ==> gs[i][k] in s
  {
    if n <= 0 then [] else seq(n, i requires 0 <= i < n => Strided(s, i, n))
  }

  /** Shuffled position p lands in group p % n, at index p / n of that group. */
  lemma GroupPlacement<T>(s: seq<T>, n: int, p: nat)
    requires n >= 1 && p < |s|
    ensures p % n < |Groups(s, n)| && p / n < |Groups(s, n)[p % n]|
    ensures Groups(s, n)[p % n][p / n] == s[p]
  {
    var i, k := p % n, p / n;
    assert i + k * n == p;
    StridedCovers(s, i, n, k);
    StridedEntry(s, i, n, k);
  }

  /** Scaling by a natural number keeps the order of two integers. */
  lemma MulMonotone(a: int, b: int, n: nat)
    requires a <= b
    ensures a * n <= b * n
  {
  }

  /** Two positions i + k n and j + l n with residues i, j below n coincide only if i = j and k = l. */
  lemma PositionUnique(i: nat, k: nat, j: nat, l: nat, n: nat)
    requires i < n && j < n && i + k * n == j + l * n
    ensures i == j && k == l
  {
    if k < l {
      MulMonotone(k + 1, l, n);
    } else if l < k {
      MulMonotone(l + 1, k, n);
    }
  }

  /** Entries of two strided slices of a list of distinct ids are equal only at the same place. */
  lemma StridedEntriesDistinct<T>(s: seq<T>, i: nat, j: nat, k: nat, l: nat, n: nat)
    requires forall p, q :: 0 <= p < q < |s| ==> s[p] != s[q]
    requires i < n && j < n && k < |Strided(s, i, n)| && l < |Strided(s, j, n)|
    requires Strided(s, i, n)[k] == Strided(s, j, n)[l]
    ensures i == j && k == l
  {
    StridedEntry(s, i, n, k);
    StridedEntry(s, j, n, l);
    PositionUnique(i, k, j, l, n);
  }

  /** With distinct ids, no id appears twice among the groups, neither in two groups nor twice in one. */
  lemma GroupsDisjoint<T>(s: seq<T>, n: int)
    requires forall p, q :: 0 <= p < q < |s| ==> s[p] != s[q]
    ensures forall i, j, k, l ::
      (0 <= i < |Groups(s, n)| && 0 <= j < |Groups(s, n)| && 0 <= k < |Groups(s, n)[i]| && 0 <= l < |Groups(s, n)[j]|
       && Groups(s, n)[i][k] == Groups(s, n)[j][l]) ==> i == j && k == l
  {
    var gs := Groups(s, n);
    forall i, j, k, l | 0 <= i < |gs| && 0 <= j < |gs| && 0 <= k < |gs[i]| && 0 <= l < |gs[j]| && gs[i][k] == gs[j][l]
      ensures i == j && k == l
    {
      StridedEntriesDistinct(s, i, j, k, l, n);
    }
  }

  /** For residues i < j < n, `s[j::n]` is no longer than `s[i::n]` and at most one shorter. */
  lemma {:induction false} StridedSizes<T>(s: seq<T>, i: nat, j: nat, n: nat)
    requires i < j < n
    ensures |Strided(s, j, n)| <= |Strided(s, i, n)| <= |Strided(s, j, n)| + 1
    decreases |s|
  {
    if |s| < n {
      assert Strided(s, i + n, n) == [] && Strided(s, j + n, n) == [];
    } else {
      StridedShift(s, i, n);
      StridedShift(s, j, n);
      StridedSizes(s[n..], i, j, n);
    }
  }

  /** Group sizes never grow along the list and differ by at most one. */
  lemma GroupSizesBalanced<T>(s: seq<T>, n: int)
    ensures forall i, j :: 0 <= i < j < |Groups(s, n)| ==>
      |Groups(s, n)[j]| <= |Groups(s, n)[i]| <= |Groups(s, n)[j]| + 1
  {
    forall i, j | 0 <= i < j < |Groups(s, n)|
      ensures |Groups(s, n)[j]| <= |Groups(s, n)[i]| <= |Groups(s, n)[j]| + 1
    {
      StridedSizes(s, i, j, n);
    }
  }

  // ---------------------------------------------------------------------------
  // Totals over the groups

  /** The total weight of each group `ws[i::n]`. */
  function GroupTotals(ws: seq<nat>, n: nat): (ts: seq<nat>)
    requires n >= 1
    ensures |ts| == n
  {
    seq(n, i requires 0 <= i < n => SumNat(Strided(ws, i, n)))
  }

  /** Splitting weights round-robin into n groups keeps their total. */
  lemma {:induction false} GroupTotalsSum(ws: seq<nat>, n: nat)
    requires n >= 1
    ensures SumNat(GroupTotals(ws, n)) == SumNat(ws)
    decreases |ws|
  {
    var ts := GroupTotals(ws, n);
    if |ws| < n {
      var zs: seq<nat> := seq(n - |ws|, _ => 0);
      forall i | 0 <= i < n
        ensures ts[i] == (ws + zs)[i]
      {
        assert Strided(ws, i + n, n) == [];
        if i < |ws| {
          assert Strided(ws, i, n) == [ws[i]];
          assert SumNat([ws[i]]) == ws[i] + SumNat([]);
        } else {
          assert Strided(ws, i, n) == [];
        }
      }
      assert ts == ws + zs;
      SumNatConcat(ws, zs);
      SumNatZeros(zs);
    } else {
      var rest := GroupTotals(ws[n..], n);
      forall i | 0 <= i < n
        ensures ts[i] == ws[..n][i] + rest[i]
      {
        StridedShift(ws, i, n);
        var tail := Strided(ws[n..], i, n);
        assert Strided(ws, i, n) == [ws[i]] + tail;
        assert ([ws[i]] + tail)[1..] == tail;
      }
      SumNatPointwise(ws[..n], rest, ts);
      GroupTotalsSum(ws[n..], n);
      assert ws == ws[..n] + ws[n..];
      SumNatConcat(ws[..n], ws[n..]);
    }
  }

  /** Looking up a strided slice of ids gives the strided slice of their row counts. */
  lemma {:induction false} StridedLookupLengths(s: seq<int>, X: map<int, Matrix>, i: nat, n: nat)
    requires n >= 1 && forall k :: 0 <= k < |s| ==> s[k] in X
    ensures Lengths(Lookup(Strided(s, i, n), X)) == Strided(Lengths(Lookup(s, X)), i, n)
    decreases |s| - i
  {
    if i < |s| {
      StridedLookupLengths(s, X, i + n, n);
      var g := Strided(s, i, n);
      var tail := Strided(s, i + n, n);
      assert g == [s[i]] + tail;
      assert Lengths(Lookup(g, X)) == [|X[s[i]]|] + Lengths(Lookup(tail, X));
    }
  }

  // ---------------------------------------------------------------------------
  // partition_workers

  /** `eids` is the shuffled key list of X: every key exactly once. */
  predicate ShuffledKeys(eids: seq<int>, X: map<int, Matrix>)
  {
    (forall p, q :: 0 <= p < q < |eids| ==> eids[p] != eids[q])
    && (forall k :: 0 <= k < |eids| ==> eids[k] in X)
    && (forall e :: e in X ==> e in eids)
  }

  /** Put the stacks of earlier groups in front of the outcome of the later ones. */
  function Prepend(xw: seq<Matrix>, yw: seq<Matrix>, rest: Result<(seq<Matrix>, seq<Matrix>)>)
    : Result<(seq<Matrix>, seq<Matrix>)>
  {
    if rest.Err? then rest else Ok((xw + rest.value.0, yw + rest.value.1))
  }

  /** Stack every group in turn; the first group that fails decides the error. */
  function StackAll(groups: seq<seq<int>>, X: map<int, Matrix>, Y: map<int, Matrix>)
    : (r: Result<(seq<Matrix>, seq<Matrix>)>)
    requires forall i :: 0 <= i < |groups| ==> forall k :: 0 <= k < |groups[i]| ==> groups[i][k] in X
    ensures r.Ok? ==> |r.value.0| == |groups| && |r.value.1| == |groups|
  {
    if groups == [] then Ok(([], []))
    else
      var h := StackGroup(groups[0], X, Y);
      if h.Err? then Err(h.error)
      else Prepend([h.value.0], [h.value.1], StackAll(groups[1..], X, Y))
  }

  /** Stacking from group i on: group i's outcome, then the groups after it. */
  lemma StackAllFrom(groups: seq<seq<int>>, X: map<int, Matrix>, Y: map<int, Matrix>, i: nat)
    requires forall i :: 0 <= i < |groups| ==> forall k :: 0 <= k < |groups[i]| ==> groups[i][k] in X
    requires i < |groups|
    ensures StackAll(groups[i..], X, Y) ==
      var h := StackGroup(groups[i], X, Y);
      if h.Err? then Err(h.error) else Prepend([h.value.0], [h.value.1], StackAll(groups[i + 1..], X, Y))
  {
    assert groups[i..][0] == groups[i] && groups[i..][1..] == groups[i + 1..];
  }

  /** Stacking all groups succeeds exactly when each group does. */
  lemma {:induction false} StackAllOk(groups: seq<seq<int>>, X: map<int, Matrix>, Y: map<int, Matrix>)
    requires forall i :: 0 <= i < |groups| ==> forall k :: 0 <= k < |groups[i]| ==> groups[i][k] in X
    ensures StackAll(groups, X, Y).Ok? <==> forall i :: 0 <= i < |groups| ==> StackGroup(groups[i], X, Y).Ok?
  {
    if groups != [] {
      var tail := groups[1..];
      StackAllOk(tail, X, Y);
      assert forall i :: 1 <= i < |groups| ==> groups[i] == tail[i - 1];
    }
  }

  /** After a successful stacking, worker i holds the stacks of group i. */
  lemma {:induction false} StackAllEntry(groups: seq<seq<int>>, X: map<int, Matrix>, Y: map<int, Matrix>, i: nat)
    requires forall i :: 0 <= i < |groups| ==> forall k :: 0 <= k < |groups[i]| ==> groups[i][k] in X
    requires StackAll(groups, X, Y).Ok? && i < |groups|
    ensures StackGroup(groups[i], X, Y).Ok?
    ensures StackAll(groups, X, Y).value.0[i] == StackGroup(groups[i], X, Y).value.0
    ensures StackAll(groups, X, Y).value.1[i] == StackGroup(groups[i], X, Y).value.1
  {
    if i > 0 {
      StackAllEntry(groups[1..], X, Y, i - 1);
      assert groups[1..][i - 1] == groups[i];
    }
  }

  /** When the groups before group i all stack, the error of group i is the error of the whole. */
  lemma {:induction false} StackAllFirstError(groups: seq<seq<int>>, X: map<int, Matrix>, Y: map<int, Matrix>, i: nat)
    requires forall i :: 0 <= i < |groups| ==> forall k :: 0 <= k < |groups[i]| ==> groups[i][k] in X
    requires i < |groups| && StackGroup(groups[i], X, Y).Err?
    requires forall j :: 0 <= j < i ==> StackGroup(groups[j], X, Y).Ok?
    ensures StackAll(groups, X, Y) == Err(StackGroup(groups[i], X, Y).error)
  {
    if i > 0 {
      StackAllFirstError(groups[1..], X, Y, i - 1);
      assert groups[1..][i - 1] == groups[i];
    }
  }

  /** `partition_workers`: one stack of feature rows and one of label rows per round-robin group. */
  function Partition(X: map<int, Matrix>, Y: map<int, Matrix>, eids: seq<int>, n: int)
    : (r: Result<(seq<Matrix>, seq<Matrix>)>)
    requires ShuffledKeys(eids, X)
    ensures n <= 0 ==> r == Ok(([], []))
    ensures r.Ok? && n > 0 ==> |r.value.0| == n && |r.value.1| == n
  {
    StackAll(Groups(eids, n), X, Y)
  }

  lemma PrependNothing(rest: Result<(seq<Matrix>, seq<Matrix>)>)
    ensures Prepend([], [], rest) == rest
  {
    if rest.Ok? {
      assert [] + rest.value.0 == rest.value.0 && [] + rest.value.1 == rest.value.1;
    }
  }

  lemma PrependPrepend(xw: seq<Matrix>, yw: seq<Matrix>, x: Matrix, y: Matrix,
                       rest: Result<(seq<Matrix>, seq<Matrix>)>)
    ensures Prepend(xw, yw, Prepend([x], [y], rest)) == Prepend(xw + [x], yw + [y], rest)
  {
    if rest.Ok? {
      assert xw + ([x] + rest.value.0) == xw + [x] + rest.value.0;
      assert yw + ([y] + rest.value.1) == yw + [y] + rest.value.1;
    }
  }

  /**
   * `partition_workers` on the shuffled ids `eids`: for each group in turn,
   * stack its feature rows, then its label rows, and append both; the first
   * stacking that fails ends the call with its error.
   */
  method PartitionWorkers(X: map<int, Matrix>, Y: map<int, Matrix>, eids: seq<int>, n: int)
    returns (r: Result<(seq<Matrix>, seq<Matrix>)>)
    requires ShuffledKeys(eids, X)
    ensures r == Partition(X, Y, eids, n)
  {
    var groups := Groups(eids, n);
    var xw: seq<Matrix> := [];
    var yw: seq<Matrix> := [];
    assert groups[0..] == groups;
    PrependNothing(StackAll(groups, X, Y));
    var i := 0;
    while i < |groups|
      invariant 0 <= i <= |groups|
      invariant Prepend(xw, yw, StackAll(groups[i..], X, Y)) == Partition(X, Y, eids, n)
    {
      var g := groups[i];
      StackAllFrom(groups, X, Y, i);
      var xs := VStack(Lookup(g, X));
      if xs.Err? {
        return Err(xs.error);
      }
      var missing := FirstMissing(g, Y);
      if missing.Some? {
        return Err(MissingKey(g[missing.value]));
      }
      var ys := VStack(Lookup(g, Y));
      if ys.Err? {
        return Err(ys.error);
      }
      PrependPrepend(xw, yw, xs.value, ys.value, StackAll(groups[i + 1..], X, Y));
      xw := xw + [xs.value];
      yw := yw + [ys.value];
      i := i + 1;
    }
    assert groups[i..] == [];
    assert xw + [] == xw && yw + [] == yw;
    r := Ok((xw, yw));
  }

  /** Worker i receives the stacks of group i; every group is non-empty and knows its labels. */
  lemma PartitionOutcome(X: map<int, Matrix>, Y: map<int, Matrix>, eids: seq<int>, n: int)
    requires ShuffledKeys(eids, X)
    ensures n <= 0 ==> Partition(X, Y, eids, n) == Ok(([], []))
    ensures Partition(X, Y, eids, n).Ok? <==>
      forall i :: 0 <= i < |Groups(eids, n)| ==> StackGroup(Groups(eids, n)[i], X, Y).Ok?
    ensures Partition(X, Y, eids, n).Ok? ==>
      var (xw, yw) := Partition(X, Y, eids, n).value;
      |xw| == |Groups(eids, n)| && |yw| == |Groups(eids, n)|
      && forall i :: 0 <= i < |Groups(eids, n)| ==>
        Groups(eids, n)[i] != [] && FirstMissing(Groups(eids, n)[i], Y).None?
        && xw[i] == Concat(Lookup(Groups(eids, n)[i], X)) && yw[i] == Concat(Lookup(Groups(eids, n)[i], Y))
  {
    var gs := Groups(eids, n);
    StackAllOk(gs, X, Y);
    if Partition(X, Y, eids, n).Ok? {
      forall i | 0 <= i < |gs|
        ensures StackAll(gs, X, Y).value.0[i] == StackGroup(gs[i], X, Y).value.0
        ensures StackAll(gs, X, Y).value.1[i] == StackGroup(gs[i], X, Y).value.1
      {
        StackAllEntry(gs, X, Y, i);
      }
    }
  }

  /**
   * More workers than ids leaves group |eids| empty, so the call fails; when
   * the groups before it stack, the failure is the empty stack itself.
   */
  lemma PartitionTooManyWorkers(X: map<int, Matrix>, Y: map<int, Matrix>, eids: seq<int>, n: int)
    requires ShuffledKeys(eids, X) && n > |eids|
    ensures Partition(X, Y, eids, n).Err?
    ensures (forall i :: 0 <= i < |eids| ==> StackGroup(Groups(eids, n)[i], X, Y).Ok?) ==>
      Partition(X, Y, eids, n) == Err(EmptyStack)
  {
    var gs := Groups(eids, n);
    assert gs[|eids|] == Strided(eids, |eids|, n) == [];
    StackAllOk(gs, X, Y);
    if forall i :: 0 <= i < |eids| ==> StackGroup(gs[i], X, Y).Ok? {
      StackAllFirstError(gs, X, Y, |eids|);
    }
  }

  /**
   * When every unit has as many label rows as feature rows, worker i's two
   * stacks have the same row count, and row r of both comes from the same row
   * of the same unit.
   */
  lemma PartitionRowsAligned(X: map<int, Matrix>, Y: map<int, Matrix>, eids: seq<int>, n: int, i: nat)
    requires ShuffledKeys(eids, X) && Partition(X, Y, eids, n).Ok? && i < |Groups(eids, n)|
    requires forall e :: e in X && e in Y ==> |X[e]| == |Y[e]|
    ensures var g := Groups(eids, n)[i];
      (forall k :: 0 <= k < |g| ==> g[k] in X)
      && |Partition(X, Y, eids, n).value.0| == |Groups(eids, n)|
      && RowsAligned(g, X, Y, Partition(X, Y, eids, n).value.0[i], Partition(X, Y, eids, n).value.1[i])
  {
    PartitionOutcome(X, Y, eids, n);
    StackGroupAligned(Groups(eids, n)[i], X, Y);
  }

  /** No row is dropped or duplicated: the workers hold as many feature rows as all units together. */
  lemma PartitionKeepsRows(X: map<int, Matrix>, Y: map<int, Matrix>, eids: seq<int>, n: int)
    requires ShuffledKeys(eids, X) && Partition(X, Y, eids, n).Ok? && n >= 1
    ensures SumNat(Lengths(Partition(X, Y, eids, n).value.0)) == SumNat(Lengths(Lookup(eids, X)))
  {
    PartitionOutcome(X, Y, eids, n);
    var xw, gs, ws := Partition(X, Y, eids, n).value.0, Groups(eids, n), Lengths(Lookup(eids, X));
    forall i | 0 <= i < n
      ensures Lengths(xw)[i] == GroupTotals(ws, n)[i]
    {
      StridedLookupLengths(eids, X, i, n);
      assert gs[i] == Strided(eids, i, n);
    }
    assert Lengths(xw) == GroupTotals(ws, n);
    GroupTotalsSum(ws, n);
  }

  // ---------------------------------------------------------------------------
  // dict_to_flat_arrays

  lemma SomeElement(ks: set<int>)
    requires ks != {}
    ensures exists x :: x in ks
  {
    if forall x :: x !in ks {
      assert false;
    }
  }

  /** A smallest id of a non-empty set, found by taking ids out one at a time. */
  ghost function MinOf(ks: set<int>): (m: int)
    requires ks != {}
    ensures m in ks && forall k :: k in ks ==> m <= k
    decreases |ks|
  {
    SomeElement(ks);
    var x :| x in ks;
    var rest := ks - {x};
    if rest == {} then
      assert forall k :: k in ks ==> k == x by {
        forall k | k in ks ensures k == x { assert k !in rest; }
      }
      x
    else
      var m := MinOf(rest);
      assert forall k :: k in ks ==> k == x || k in rest;
      if x < m then x else m
  }

  /** The smallest id of a non-empty set. */
  function Least(ks: set<int>): (m: int)
    requires ks != {}
    ensures m in ks && forall k :: k in ks ==> m <= k
  {
    var least := MinOf(ks);
    var m :| m in ks && forall k :: k in ks ==> m <= k;
    m
  }

  /** `sorted(keys)`: the keys in strictly ascending order, each exactly once. */
  function SortedKeys(ks: set<int>): (s: seq<int>)
    ensures forall e :: e in s <==> e in ks
    ensures forall p, q :: 0 <= p < q < |s| ==> s[p] < s[q]
    ensures |s| == |ks|
    decreases |ks|
  {
    if ks == {} then []
    else
      var m := Least(ks);
      var rest := SortedKeys(ks - {m});
      assert forall e :: e in [m] + rest <==> e == m || e in rest;
      [m] + rest
  }

  /**
   * `dict_to_flat_arrays`: the feature rows and the label rows of all units,
   * stacked in ascending id order; no units at all is an empty stack.
   */
  function FlatArrays(X: map<int, Matrix>, Y: map<int, Matrix>): (r: Result<(Matrix, Matrix)>)
    ensures X == map[] ==> r == Err(EmptyStack)
    ensures r.Ok? ==>
      (forall e :: e in X ==> e in Y)
      && r.value.0 == Concat(Lookup(SortedKeys(X.Keys), X))
      && r.value.1 == Concat(Lookup(SortedKeys(X.Keys), Y))
  {
    StackGroup(SortedKeys(X.Keys), X, Y)
  }

  /**
   * With as many label rows as feature rows per unit, the flat arrays have
   * as many rows as all units together, and row r of both comes from the same
   * row of the same unit.
   */
  lemma FlatArraysAligned(X: map<int, Matrix>, Y: map<int, Matrix>)
    requires FlatArrays(X, Y).Ok?
    requires forall e :: e in X && e in Y ==> |X[e]| == |Y[e]|
    ensures var ids := SortedKeys(X.Keys);
      (forall k :: 0 <= k < |ids| ==> ids[k] in X)
      && RowsAligned(ids, X, Y, FlatArrays(X, Y).value.0, FlatArrays(X, Y).value.1)
  {
    StackGroupAligned(SortedKeys(X.Keys), X, Y);
  }

  // ---------------------------------------------------------------------------
  // federate_average

  /**
   * `federate_average`: the unweighted entrywise mean of the models. Stacking
   * fails on an empty list and on models of different lengths.
   */
  function FederateAverage(models: seq<Vector>): (r: Result<Vector>)
    ensures models == [] ==> r == Err(EmptyStack)
    ensures r.Ok? <==> models != [] && IsMatrix(models, |models[0]|)
    ensures r.Ok? ==>
      |r.value| == |models[0]|
      && forall j :: 0 <= j < |r.value| ==> r.value[j] == Sum(Column(models, j)) / (|models| as real)
  {
    if models == [] then Err(EmptyStack)
    else if !IsMatrix(models, |models[0]|) then Err(ShapeMismatch)
    else
      var d := |models[0]|;
      assert forall j :: 0 <= j < d ==> MeanVecs(models, d)[j] == Sum(Column(models, j)) / (|models| as real) by {
        forall j | 0 <= j < d ensures MeanVecs(models, d)[j] == Sum(Column(models, j)) / (|models| as real) {
          MeanVecsEntry(models, d, j);
        }
      }
      Ok(MeanVecs(models, d))
  }

  /** Averaging k copies of one model gives that model back. */
  lemma FederateAverageOfCopies(w: Vector, k: nat)
    requires k >= 1
    ensures FederateAverage(Replicate(w, k)) == Ok(w)
  {
    MeanOfReplicate(w, k);
  }

  /** Models whose entries add up to zero position by position average to the zero vector. */
  lemma FederateAverageOfZeroSum(models: seq<Vector>, d: nat)
    requires models != [] && IsMatrix(models, d)
    requires forall j :: 0 <= j < d ==> Sum(Column(models, j)) == 0.0
    ensures FederateAverage(models) == Ok(Zeros(d))
  {
    assert |models[0]| == d;
    var r := FederateAverage(models).value;
    forall j | 0 <= j < d
      ensures r[j] == 0.0
    {
      assert r[j] == Sum(Column(models, j)) / (|models| as real);
    }
    assert r == Zeros(d);
  }

  /** Reordering the models does not change the average, nor the error. */
  lemma FederateAverageReorder(models: seq<Vector>, reordered: seq<Vector>)
    requires multiset(models) == multiset(reordered)
    ensures FederateAverage(models) == FederateAverage(reordered)
  {
    assert |models| == |multiset(models)| == |reordered|;
    if models != [] {
      var d, d' := |models[0]|, |reordered[0]|;
      assert reordered[0] in multiset(models);
      if IsMatrix(models, d) {
        forall k | 0 <= k < |reordered| ensures |reordered[k]| == d {
          assert reordered[k] in multiset(models);
        }
        MeanVecsPermutation(models, reordered, d);
      } else if IsMatrix(reordered, d') {
        assert models[0] in multiset(reordered);
        forall k | 0 <= k < |models| ensures |models[k]| == d' {
          assert models[k] in multiset(reordered);
        }
      }
    }
  }
}
