/** The data loaders of lib/gd_data_loaders.py over the containers of
    lib/original_backend/linear_algebra.py: each `get_batch` picks a list of
    row indices and returns `X.rows(indices), y.rows(indices)`. The random
    permutation `MiniBatchDataLoader` draws is a parameter: whatever
    `random.sample(range(n), n)` returned, it is a permutation of `0..n-1`. */
module DataLoaders {
  import opened Common
  import opened OriginalBackend

  /** `X.rows(indices), y.rows(indices)`: the same index list for both, `X`
      first (its IndexError is the one raised when both would raise). */
  function RowsOfBoth<V>(ops: Ops<V>, x: Rows<V>, y: Rows<V>, indices: seq<int>): (r: Result<(Rows<V>, Rows<V>)>)
    ensures var keys := seq(|indices|, t requires 0 <= t < |indices| => IntKey(indices[t]));
            r.Ok? <==> MatrixRows(ops, x, keys).Ok? && MatrixRows(ops, y, keys).Ok?
    ensures var keys := seq(|indices|, t requires 0 <= t < |indices| => IntKey(indices[t]));
            r.Ok? ==> r.value == (MatrixRows(ops, x, keys).value, MatrixRows(ops, y, keys).value)
    ensures r.Err? ==> r.error == IndexError
  {
    var keys := seq(|indices|, t requires 0 <= t < |indices| => IntKey(indices[t]));
    var xs :- MatrixRows(ops, x, keys);
    var ys :- MatrixRows(ops, y, keys);
    Ok((xs, ys))
  }

  /** BatchDataLoader: every batch is the whole of `X` and `y`. */
  class BatchLoader<V> {
    const x: Rows<V>
    const y: Rows<V>

    constructor (x: Rows<V>, y: Rows<V>)
      ensures this.x == x && this.y == y
    {
      this.x := x;
      this.y := y;
    }

    method GetBatch() returns (batchX: Rows<V>, batchY: Rows<V>)
      ensures batchX == x && batchY == y
    {
      batchX, batchY := x, y;
    }
  }

  /** StochasticDataLoader: one row per batch, cycling through the rows. */
  class StochasticLoader<!V> {
    const ops: Ops<V>
    const x: Rows<V>
    const y: Rows<V>
    var currentStep: int

    /** `X` is a Matrix (so it has a row), and the step is one of its rows. */
    ghost predicate Valid()
      reads this
    {
      IsMatrix(x) && 0 <= currentStep < |x|
    }

    constructor (ops: Ops<V>, x: Rows<V>, y: Rows<V>)
      requires IsMatrix(x)
      ensures Valid() && this.ops == ops && this.x == x && this.y == y && currentStep == 0
    {
      this.ops := ops;
      this.x := x;
      this.y := y;
      currentStep := 0;
    }

    /** Returns row `current_step` of `X` and of `y`, and moves the step to
        the next row, from the last back to the first. */
    method GetBatch() returns (r: Result<(Rows<V>, Rows<V>)>)
      requires Valid()
      modifies this
      ensures Valid()
      ensures currentStep == NextStep(|x|, old(currentStep))
      ensures r == RowsOfBoth(ops, x, y, [old(currentStep)])
      ensures r.Ok? ==> |r.value.0| == 1 && |r.value.0[0]| == |x[old(currentStep)]|
    {
      var indices := [currentStep];
      if currentStep < |x| - 1 {
        currentStep := currentStep + 1;
      } else {
        currentStep := 0;
      }
      r := RowsOfBoth(ops, x, y, indices);
    }
  }

  /** The step after the one at `s`: the next row, or the first after the
      last. */
  function NextStep(n: nat, s: nat): (r: nat)
    requires s < n
    ensures r < n && r == (s + 1) % n
  {
    if s < n - 1 then s + 1 else 0
  }

  /** The step after `k` batches from step 0. */
  function Cycle(n: nat, k: nat): (s: nat)
    requires n > 0
    ensures s < n
  {
    if k == 0 then 0 else NextStep(n, Cycle(n, k - 1))
  }

  /** From step 0, the first `n` batches read rows `0, 1, …, n-1` in order,
      and the next one is row 0 again. */
  lemma {:induction false} StochasticCycle(n: nat, k: nat)
    requires n > 0 && k <= n
    ensures Cycle(n, k) == if k < n then k else 0
  {
    if k > 0 {
      StochasticCycle(n, k - 1);
    }
  }

  /** MiniBatchDataLoader. */
  class MiniBatchLoader<!V> {
    const ops: Ops<V>
    const x: Rows<V>
    const y: Rows<V>
    const batchSize: int
    var currentStep: int
    var indexes: seq<nat>

    /** `indexes` is always a permutation of the rows of `X`, and with a
        batch size in `0..n` the step stays in `0..n-1`. */
    ghost predicate Valid()
      reads this
    {
      IsMatrix(x) && IsPermutation(indexes, |x|) &&
      (0 <= batchSize <= |x| ==> 0 <= currentStep < |x|)
    }

    /** `perm` is the result of the first `_regenerate_indexes`. */
    constructor (ops: Ops<V>, x: Rows<V>, y: Rows<V>, batchSize: int, perm: seq<nat>)
      requires IsMatrix(x) && IsPermutation(perm, |x|)
      ensures Valid() && this.ops == ops && this.x == x && this.y == y && this.batchSize == batchSize
      ensures currentStep == 0 && indexes == perm
    {
      this.ops := ops;
      this.x := x;
      this.y := y;
      this.batchSize := batchSize;
      currentStep := 0;
      indexes := perm;
    }

    /** The index logic of `get_batch`; `perm` is what `_regenerate_indexes`
        returns if the batch runs past the last row. Then the batch is the
        rest of the current permutation followed by the head of the new one,
        and the step restarts at what was taken from the new one. */
    method NextIndexes(perm: seq<nat>) returns (batch: seq<int>)
      requires Valid() && IsPermutation(perm, |x|)
      modifies this
      ensures Valid()
      ensures var next := old(currentStep) + batchSize;
              if next >= |x| then
                batch == PySlice(old(indexes), old(currentStep), |x|) + PySlice(perm, 0, next - |x|) &&
                indexes == perm && currentStep == next - |x|
              else
                batch == PySlice(old(indexes), old(currentStep), next) &&
                indexes == old(indexes) && currentStep == next
      ensures 0 <= batchSize <= |x| ==> |batch| == batchSize
      ensures forall t :: 0 <= t < |batch| ==> 0 <= batch[t] < |x|
    {
      var n := |x|;
      var next := currentStep + batchSize;
      if next >= n {
        var rest := next - n;
        batch := PySlice(indexes, currentStep, |indexes|);
        indexes := perm;
        batch := batch + PySlice(indexes, 0, rest);
        currentStep := rest;
      } else {
        batch := PySlice(indexes, currentStep, next);
        currentStep := next;
      }
    }

    /** `get_batch(perm)`: the rows of `X` and `y` at the same batch of
        indices. */
    method GetBatch(perm: seq<nat>) returns (batch: seq<int>, r: Result<(Rows<V>, Rows<V>)>)
      requires Valid() && IsPermutation(perm, |x|)
      modifies this
      ensures Valid()
      ensures var next := old(currentStep) + batchSize;
              if next >= |x| then
                batch == PySlice(old(indexes), old(currentStep), |x|) + PySlice(perm, 0, next - |x|) &&
                indexes == perm && currentStep == next - |x|
              else
                batch == PySlice(old(indexes), old(currentStep), next) &&
                indexes == old(indexes) && currentStep == next
      ensures 0 <= batchSize <= |x| ==> |batch| == batchSize
      ensures r == RowsOfBoth(ops, x, y, batch)
    {
      batch := NextIndexes(perm);
      r := RowsOfBoth(ops, x, y, batch);
    }
  }
}
