/** The preprocessing helpers. `ColumnNormalizer` (lib/processing.py) works
    on the `Matrix` of lib/linear_algebra.py: `fit` stores, per column, the
    nodes that `col(k).mean()` and `col(k).std()` build, and `transform`
    reads only the `data` of those nodes and of the entries, so every entry
    of its result is a fresh leaf. `OneHotEncoder` and `LabelEncoder` are
    defined alike by lib/np_backend/processing.py and
    lib/pt_backend/processing.py, over any values that compare with `==`. */
module Processing {
  import opened Common
  import opened Calculus
  import opened Backprop
  import opened Nodes
  import opened LinearAlgebra
  import opened LinearAlgebraMatrix

  // ---------------------------------------------------------------------------
  // Column normalisation

  /** The number of leading columns every row has: `matrix.col(k)` succeeds
      exactly for `0 <= k` below it. */
  function SharedColumns<T>(m: seq<seq<T>>): (r: nat)
    requires |m| > 0
    ensures forall i :: 0 <= i < |m| ==> r <= |m[i]|
    ensures exists i :: 0 <= i < |m| && |m[i]| == r
  {
    if |m| == 1 then |m[0]|
    else
      var rest := SharedColumns(m[1..]);
      assert forall i :: 1 <= i < |m| ==> m[i] == m[1..][i - 1];
      if |m[0]| <= rest then |m[0]| else rest
  }

  /** What `transform` raises on column `c` of `m`, if anything: IndexError
      from `col(c)` when a row is too short, IndexError from `means[c]` or
      `stds[c]` when `fit` saw fewer columns, ZeroDivisionError when the
      stored standard deviation is 0. */
  function ColumnFault(d: seq<real>, m: seq<seq<NodeId>>, means: seq<NodeId>, stds: seq<NodeId>, c: nat): (r: Option<Error>)
    requires |m| > 0 && Within(d, stds)
    ensures r == None <==> c < SharedColumns(m) && c < |means| && c < |stds| && d[stds[c]] != 0.0
  {
    if c >= SharedColumns(m) || c >= |means| || c >= |stds| then Some(IndexError)
    else if d[stds[c]] == 0.0 then Some(ZeroDivisionError)
    else None
  }

  /** The fault of the first faulty column among `c`, `c + 1`, … of the
      first row's length, the columns `transform` walks. */
  function FirstFault(d: seq<real>, m: seq<seq<NodeId>>, means: seq<NodeId>, stds: seq<NodeId>, c: nat): Option<Error>
    requires |m| > 0 && Within(d, stds)
    decreases |m[0]| - c
  {
    if c >= |m[0]| then None
    else if ColumnFault(d, m, means, stds, c).Some? then ColumnFault(d, m, means, stds, c)
    else FirstFault(d, m, means, stds, c + 1)
  }

  /** The entry `x` standardised: `(x - mean) / std`. */
  function Standardize(x: real, mean: real, std: real): real
    requires std != 0.0
  {
    (x - mean) / std
  }

  /** When no column from `k` on is faulty, column `c` is not. */
  lemma {:induction false} NoFault(d: seq<real>, m: seq<seq<NodeId>>, means: seq<NodeId>, stds: seq<NodeId>, k: nat, c: nat)
    requires |m| > 0 && Within(d, stds) && FirstFault(d, m, means, stds, k) == None && k <= c < |m[0]|
    ensures ColumnFault(d, m, means, stds, c) == None
    decreases c - k
  {
    if k < c {
      NoFault(d, m, means, stds, k + 1, c);
    }
  }

  /** `Standardize` on every entry of a column. */
  function StandardizedColumn(s: seq<real>, mean: real, std: real): (r: seq<real>)
    requires std != 0.0
    ensures |r| == |s| && forall i :: 0 <= i < |s| ==> r[i] == Standardize(s[i], mean, std)
  {
    seq(|s|, i requires 0 <= i < |s| => Standardize(s[i], mean, std))
  }

  /** Summing a standardised column: `(sum(s) - len(s) * mean) / std`. */
  lemma {:induction false} SumStandardized(s: seq<real>, mean: real, std: real)
    requires std != 0.0
    ensures Sum(StandardizedColumn(s, mean, std)) == (Sum(s) - |s| as real * mean) / std
  {
    if s != [] {
      var init := s[..|s| - 1];
      var z := StandardizedColumn(s, mean, std);
      SumStandardized(init, mean, std);
      assert z[..|z| - 1] == StandardizedColumn(init, mean, std);
      var a := Sum(init) - |init| as real * mean;
      var b := s[|s| - 1] - mean;
      assert Sum(z) == a / std + b / std;
      assert a / std + b / std == (a + b) / std;
    }
  }

  /** Standardising a column by its own mean gives a column of mean 0. */
  lemma StandardizedMeanIsZero(s: seq<real>, std: real)
    requires |s| > 0 && std != 0.0
    ensures MeanOf(StandardizedColumn(s, MeanOf(s), std)) == 0.0
  {
    var n := |s| as real;
    var z := StandardizedColumn(s, MeanOf(s), std);
    SumStandardized(s, MeanOf(s), std);
    assert n * (Sum(s) / n) == Sum(s);
    assert Sum(s) - n * MeanOf(s) == 0.0;
    assert Sum(z) == 0.0 / std;
    assert MeanOf(z) == 0.0 / n;
  }

  /** Only leaves were added to an arena whose rules were `r0`. */
  ghost predicate AddsLeaves(r0: seq<Rule>, r1: seq<Rule>)
  {
    |r0| <= |r1| && r1[..|r0|] == r0 && forall k :: |r0| <= k < |r1| ==> r1[k] == Rule.Leaf
  }

  /** The inner loop of `transform` for one column: entry `idx` of the
      column becomes a fresh leaf `(v.data - mean.data) / std.data` appended
      to row `idx` of `rows`, a new row being started when there is none.
      The first entry already raises when `means[col]` or `stds[col]` is
      missing or the standard deviation is 0. */
  method AppendStandardized(arena: Arena, rows: seq<seq<NodeId>>, column: seq<NodeId>,
                            means: seq<NodeId>, stds: seq<NodeId>, col: nat)
    returns (r: Result<seq<seq<NodeId>>>)
    requires arena.Valid() && column != [] && Within(arena.data, column)
    requires Within(arena.data, means) && Within(arena.data, stds)
    modifies arena
    ensures arena.Valid() && Extends(old(arena.data), arena.data) && AddsLeaves(old(arena.rules), arena.rules)
    ensures r.Ok? <==> col < |means| && col < |stds| && old(arena.data)[stds[col]] != 0.0
    ensures r.Err? ==> r.error == (if col < |means| && col < |stds| then ZeroDivisionError else IndexError)
    ensures r.Ok? ==> ColumnAppended(old(arena.data), arena.data, column, rows, r.value, col, means, stds)
    ensures r.Ok? ==> forall idx :: |column| <= idx < |rows| ==> r.value[idx] == rows[idx]
  {
    ghost var d0 := arena.data;
    ghost var r0 := arena.rules;
    var result := rows;
    var idx := 0;
    while idx < |column|
      invariant 0 <= idx <= |column|
      invariant arena.Valid() && Extends(d0, arena.data) && AddsLeaves(r0, arena.rules)
      invariant idx > 0 ==> col < |means| && col < |stds| && d0[stds[col]] != 0.0
      invariant |result| == (if |rows| < idx then idx else |rows|)
      invariant forall k :: idx <= k < |result| ==> result[k] == rows[k]
      invariant forall k :: 0 <= k < idx ==>
                  var before := if k < |rows| then rows[k] else [];
                  |result[k]| == |before| + 1 && result[k][..|before|] == before &&
                  |d0| <= result[k][|before|] < |arena.data| &&
                  arena.data[result[k][|before|]] == Standardize(d0[column[k]], d0[means[col]], d0[stds[col]])
    {
      if |result| <= idx {
        result := result + [[]];
      }
      if col >= |means| || col >= |stds| {
        return Err(IndexError);
      }
      var std := arena.data[stds[col]];
      if std == 0.0 {
        return Err(ZeroDivisionError);
      }
      var leaf := arena.Leaf(Standardize(arena.data[column[idx]], arena.data[means[col]], std));
      result := result[idx := result[idx] + [leaf]];
      idx := idx + 1;
    }
    r := Ok(result);
  }

  /** One pass of the loop of `fit`: `col(k).mean()`, then `col(k).std()`
      on the same column; `col` raises IndexError when a row is too short. */
  method ColumnStats(arena: Arena, num: Numerics, m: Matrix, col: nat) returns (r: Result<(NodeId, NodeId)>)
    requires arena.Valid() && m.In(arena) && m.values != []
    modifies arena
    ensures arena.Valid() && Extends(old(arena.data), arena.data)
    ensures r.Err? <==> col >= SharedColumns(m.values)
    ensures r.Err? ==> r.error == IndexError
    ensures r.Ok? ==> r.value.0 < |arena.data| && r.value.1 < |arena.data|
    ensures r.Ok? ==> arena.data[r.value.0] == MeanOf(ColumnData(old(arena.data), m.values, col))
    ensures r.Ok? ==> arena.data[r.value.1] == num.rpow(VarianceOf(ColumnData(old(arena.data), m.values, col)), 0.5)
  {
    ghost var d0 := arena.data;
    var column := m.Col(col);
    if column.Err? {
      return Err(IndexError);
    }
    ghost var entries := column.value.values;
    ghost var s := ColumnData(d0, m.values, col);
    assert Data(d0, entries) == s;
    var mean := Mean(arena, num, column.value);
    column := m.Col(col);
    assert column.value.values == entries;
    DataExtends(d0, arena.data, entries);
    assert Data(arena.data, column.value.values) == s;
    var std := Std(arena, num, column.value);
    assert arena.data[std.value] == num.rpow(VarianceOf(s), 0.5);
    r := Ok((mean.value, std.value));
  }

  /** After `k` passes of `fit`'s loop, entries `n0 + c` of `means` and
      `s0 + c` of `stds` hold the mean and the standard deviation of column
      `c` of `x`, for every `c < k`. */
  ghost predicate Fitted(d: seq<real>, d0: seq<real>, x: seq<seq<NodeId>>, num: Numerics,
                         means: seq<NodeId>, stds: seq<NodeId>, n0: nat, s0: nat, k: nat)
  {
    |x| > 0 && k <= SharedColumns(x) && RowsWithin(d0, x) &&
    |means| == n0 + k && |stds| == s0 + k && Within(d, means) && Within(d, stds) &&
    forall c :: 0 <= c < k ==>
      d[means[n0 + c]] == MeanOf(ColumnData(d0, x, c)) &&
      d[stds[s0 + c]] == num.rpow(VarianceOf(ColumnData(d0, x, c)), 0.5)
  }

  /** Nodes added to the arena leave what `fit` recorded intact. */
  lemma FittedExtends(d: seq<real>, d': seq<real>, d0: seq<real>, x: seq<seq<NodeId>>, num: Numerics,
                      means: seq<NodeId>, stds: seq<NodeId>, n0: nat, s0: nat, k: nat)
    requires Fitted(d, d0, x, num, means, stds, n0, s0, k) && Extends(d, d')
    ensures Fitted(d', d0, x, num, means, stds, n0, s0, k)
  {
    DataExtends(d, d', means);
    DataExtends(d, d', stds);
  }

  /** One more pass of `fit`'s loop, whose nodes `mean` and `std` were built
      from the `data` `d` current before it. */
  lemma FittedStep(d: seq<real>, d': seq<real>, d0: seq<real>, x: seq<seq<NodeId>>, num: Numerics,
                   means: seq<NodeId>, stds: seq<NodeId>, n0: nat, s0: nat, k: nat, mean: NodeId, std: NodeId)
    requires Fitted(d, d0, x, num, means, stds, n0, s0, k) && Extends(d0, d) && Extends(d, d')
    requires k < SharedColumns(x) && mean < |d'| && std < |d'|
    requires d'[mean] == MeanOf(ColumnData(d, x, k)) && d'[std] == num.rpow(VarianceOf(ColumnData(d, x, k)), 0.5)
    ensures Fitted(d', d0, x, num, means + [mean], stds + [std], n0, s0, k + 1)
  {
    ColumnDataExtends(d0, d, x, SharedColumns(x));
    DataExtends(d, d', means);
    DataExtends(d, d', stds);
  }

  class ColumnNormalizer {
    var means: seq<NodeId>
    var stds: seq<NodeId>

    constructor ()
      ensures means == [] && stds == []
    {
      means := [];
      stds := [];
    }

    /** One pass of `fit`'s loop: appends the mean and std nodes of column
        `col`, or reports that `col` raises IndexError, changing nothing. */
    method FitColumn(arena: Arena, num: Numerics, m: Matrix, col: nat, ghost d0: seq<real>, ghost n0: nat, ghost s0: nat)
      returns (fitted: bool)
      requires arena.Valid() && m.In(arena) && Extends(d0, arena.data)
      requires Fitted(arena.data, d0, m.values, num, means, stds, n0, s0, col)
      modifies this, arena
      ensures arena.Valid() && m.In(arena) && Extends(d0, arena.data)
      ensures fitted <==> col < SharedColumns(m.values)
      ensures fitted ==> Fitted(arena.data, d0, m.values, num, means, stds, n0, s0, col + 1)
      ensures fitted ==> means[..n0] == old(means)[..n0] && stds[..s0] == old(stds)[..s0]
      ensures !fitted ==> means == old(means) && stds == old(stds)
      ensures !fitted ==> Fitted(arena.data, d0, m.values, num, means, stds, n0, s0, col)
      ensures Within(arena.data, means) && Within(arena.data, stds)
    {
      ghost var d1 := arena.data;
      ColumnDataExtends(d0, d1, m.values, SharedColumns(m.values));
      var stats := ColumnStats(arena, num, m, col);
      if stats.Err? {
        FittedExtends(d1, arena.data, d0, m.values, num, means, stds, n0, s0, col);
        return false;
      }
      FittedStep(d1, arena.data, d0, m.values, num, means, stds, n0, s0, col, stats.value.0, stats.value.1);
      ColumnDataExtends(d1, arena.data, m.values, 0);
      means := means + [stats.value.0];
      stds := stds + [stats.value.1];
      fitted := true;
    }

    /** `fit`: for each column up to the first row's length, appends the
        node `col(k).mean()` and the node `col(k).std()` build. A matrix
        without rows raises IndexError at `dims()`; a row shorter than the
        first makes `col` raise IndexError when the loop reaches its length,
        the columns before it being kept. */
    method Fit(arena: Arena, num: Numerics, m: Matrix) returns (raised: Option<Error>)
      requires arena.Valid() && m.In(arena) && Within(arena.data, means) && Within(arena.data, stds)
      modifies this, arena
      ensures arena.Valid() && Extends(old(arena.data), arena.data)
      ensures Within(arena.data, means) && Within(arena.data, stds)
      ensures old(|means|) <= |means| && means[..old(|means|)] == old(means)
      ensures old(|stds|) <= |stds| && stds[..old(|stds|)] == old(stds)
      ensures m.values == [] ==> raised == Some(IndexError) && means == old(means) && stds == old(stds)
      ensures m.values != [] ==>
                (raised.Some? <==> SharedColumns(m.values) < |m.values[0]|) &&
                (raised.Some? ==> raised.value == IndexError) &&
                Fitted(arena.data, old(arena.data), m.values, num, means, stds,
                       old(|means|), old(|stds|), SharedColumns(m.values))
    {
      var dims := m.Dims();
      if dims.Err? {
        return Some(IndexError);
      }
      ghost var d0 := arena.data;
      ghost var means0, stds0 := means, stds;
      ghost var n0, s0 := |means|, |stds|;
      ghost var shared := SharedColumns(m.values);
      assert shared <= dims.value.1;
      var col := 0;
      while col < dims.value.1
        invariant 0 <= col <= shared
        invariant arena.Valid() && m.In(arena) && Extends(d0, arena.data)
        invariant Fitted(arena.data, d0, m.values, num, means, stds, n0, s0, col)
        invariant means[..n0] == means0 && stds[..s0] == stds0
      {
        var fitted := FitColumn(arena, num, m, col, d0, n0, s0);
        if !fitted {
          assert col == shared;
          return Some(IndexError);
        }
        col := col + 1;
      }
      assert col == shared;
      raised := None;
    }

    /** One pass of `transform`'s outer loop: column `col` standardised and
        appended to `rows`, or the column's fault. */
    method TransformColumn(arena: Arena, m: Matrix, rows: seq<seq<NodeId>>, col: nat,
                           ghost d0: seq<real>, ghost r0: seq<Rule>) returns (next: Result<seq<seq<NodeId>>>)
      requires arena.Valid() && m.In(arena) && Extends(d0, arena.data) && AddsLeaves(r0, arena.rules)
      requires Standardized(arena.data, d0, m.values, means, stds, rows, col) && col < |m.values[0]|
      modifies arena
      ensures arena.Valid() && m.In(arena) && Extends(d0, arena.data) && AddsLeaves(r0, arena.rules)
      ensures next.Err? <==> ColumnFault(d0, m.values, means, stds, col).Some?
      ensures next.Err? ==> next.error == ColumnFault(d0, m.values, means, stds, col).value
      ensures next.Ok? ==> Standardized(arena.data, d0, m.values, means, stds, next.value, col + 1)
    {
      var column := m.Col(col);
      if column.Err? {
        return Err(IndexError);
      }
      DataExtends(d0, arena.data, column.value.values);
      DataExtends(d0, arena.data, means);
      DataExtends(d0, arena.data, stds);
      ghost var d1 := arena.data;
      ghost var r1 := arena.rules;
      next := AppendStandardized(arena, rows, column.value.values, means, stds, col);
      AddsLeavesTransitive(r0, r1, arena.rules);
      if next.Ok? {
        StepColumn(d0, d1, arena.data, m.values, column.value.values, rows, next.value, col, means, stds);
      }
    }

    /** `transform`: column by column, entry `idx` of column `k` becomes a
        fresh leaf `(v.data - means[k].data) / stds[k].data` appended to row
        `idx` of the result. It raises IndexError without rows, and
        otherwise the fault of its first faulty column. */
    method Transform(arena: Arena, m: Matrix) returns (r: Result<Matrix>)
      requires arena.Valid() && m.In(arena) && Within(arena.data, means) && Within(arena.data, stds)
      modifies arena
      ensures arena.Valid() && Extends(old(arena.data), arena.data) && AddsLeaves(old(arena.rules), arena.rules)
      ensures m.values == [] ==> r == Err(IndexError)
      ensures m.values != [] ==>
                var fault := FirstFault(old(arena.data), m.values, means, stds, 0);
                (r.Err? <==> fault.Some?) && (r.Err? ==> r.error == fault.value)
      ensures r.Ok? ==> (fresh(r.value) && m.values != [] &&
                         Standardized(arena.data, old(arena.data), m.values, means, stds, r.value.values, |m.values[0]|))
    {
      var dims := m.Dims();
      if dims.Err? {
        return Err(IndexError);
      }
      ghost var d0 := arena.data;
      ghost var r0 := arena.rules;
      var result: seq<seq<NodeId>> := [];
      var col := 0;
      while col < dims.value.1
        invariant 0 <= col <= dims.value.1
        invariant arena.Valid() && m.In(arena) && Extends(d0, arena.data) && AddsLeaves(r0, arena.rules)
        invariant Standardized(arena.data, d0, m.values, means, stds, result, col)
      {
        var next := TransformColumn(arena, m, result, col, d0, r0);
        if next.Err? {
          return Err(next.error);
        }
        result := next.value;
        col := col + 1;
      }
      var out := new Matrix.Of(result);
      r := Ok(out);
    }
  }

  lemma AddsLeavesTransitive(r0: seq<Rule>, r1: seq<Rule>, r2: seq<Rule>)
    requires AddsLeaves(r0, r1) && AddsLeaves(r1, r2)
    ensures AddsLeaves(r0, r2)
  {
    assert r2[..|r0|] == r2[..|r1|][..|r0|];
  }

  /** After `k` columns of `transform`'s outer loop: none of them was
      faulty, each row of `rows` holds one entry per column, and each entry
      is a node added since `d0` whose `data` is the standardised input
      entry. */
  ghost predicate Standardized(d: seq<real>, d0: seq<real>, x: seq<seq<NodeId>>,
                               means: seq<NodeId>, stds: seq<NodeId>, rows: seq<seq<NodeId>>, k: nat)
  {
    |x| > 0 && RowsWithin(d0, x) && Within(d0, means) && Within(d0, stds) && k <= |x[0]| &&
    FirstFault(d0, x, means, stds, 0) == FirstFault(d0, x, means, stds, k) &&
    |rows| == (if k == 0 then 0 else |x|) && (forall i :: 0 <= i < |rows| ==> |rows[i]| == k) &&
    forall i, c :: 0 <= i < |rows| && 0 <= c < k ==> EntryStandardized(d, d0, x, means, stds, rows[i][c], i, c)
  }

  /** The node `e` added since `d0` holds entry `c` of row `i` of `x`
      standardised by column `c`'s mean and std. */
  ghost predicate EntryStandardized(d: seq<real>, d0: seq<real>, x: seq<seq<NodeId>>,
                                    means: seq<NodeId>, stds: seq<NodeId>, e: NodeId, i: nat, c: nat)
  {
    i < |x| && c < |x[i]| && x[i][c] < |d0| && c < |means| && means[c] < |d0| && c < |stds| && stds[c] < |d0| &&
    d0[stds[c]] != 0.0 && |d0| <= e < |d| &&
    d[e] == Standardize(d0[x[i][c]], d0[means[c]], d0[stds[c]])
  }

  /** `fit` on a fresh normalizer, then `transform` of the same matrix: each
      column of the result has mean 0. `d0` is the `data` before `fit`, `d1`
      the `data` after it, `d` the `data` after `transform`. */
  lemma FitTransformCentres(d0: seq<real>, d1: seq<real>, d: seq<real>, x: seq<seq<NodeId>>, num: Numerics,
                            means: seq<NodeId>, stds: seq<NodeId>, out: seq<seq<NodeId>>, c: nat)
    requires |x| > 0 && Fitted(d1, d0, x, num, means, stds, 0, 0, SharedColumns(x))
    requires Extends(d0, d1) && Standardized(d, d1, x, means, stds, out, |x[0]|) && c < |x[0]|
    ensures RowsWithin(d, out) && |out| == |x| && forall i :: 0 <= i < |x| ==> c < |out[i]|
    ensures MeanOf(ColumnData(d, out, c)) == 0.0
  {
    NoFault(d1, x, means, stds, 0, c);
    ColumnDataExtends(d0, d1, x, SharedColumns(x));
    forall i | 0 <= i < |out|
      ensures Within(d, out[i])
    {
      forall j | 0 <= j < |out[i]|
        ensures out[i][j] < |d|
      {
        NoFault(d1, x, means, stds, 0, j);
        var std := stds[j];
      }
    }
    var s := ColumnData(d1, x, c);
    var mean, std := d1[means[c]], d1[stds[c]];
    assert mean == MeanOf(s);
    assert ColumnData(d, out, c) == StandardizedColumn(s, mean, std);
    StandardizedMeanIsZero(s, std);
  }

  /** What `transform`'s inner loop leaves: each row of `next` is the row of
      `rows` (none when `rows` is still empty) with one node appended, added
      since `d1` and holding entry `idx` of `column` standardised by column
      `col`'s mean and std. */
  ghost predicate ColumnAppended(d1: seq<real>, d2: seq<real>, column: seq<NodeId>, rows: seq<seq<NodeId>>,
                                 next: seq<seq<NodeId>>, col: nat, means: seq<NodeId>, stds: seq<NodeId>)
    requires Within(d1, column) && col < |means| && col < |stds| && means[col] < |d1| && stds[col] < |d1|
    requires d1[stds[col]] != 0.0
  {
    |next| == (if |rows| < |column| then |column| else |rows|) &&
    forall idx :: 0 <= idx < |column| ==>
      var before := if idx < |rows| then rows[idx] else [];
      |next[idx]| == |before| + 1 && next[idx][..|before|] == before &&
      |d1| <= next[idx][|before|] < |d2| &&
      d2[next[idx][|before|]] == Standardize(d1[column[idx]], d1[means[col]], d1[stds[col]])
  }

  /** One column of `transform`'s outer loop, the inner loop having
      appended to `rows` the standardised entries of column `col` read from
      the `data` `d1` current before it. */
  lemma StepColumn(d0: seq<real>, d1: seq<real>, d2: seq<real>, x: seq<seq<NodeId>>, column: seq<NodeId>,
                   rows: seq<seq<NodeId>>, next: seq<seq<NodeId>>, col: nat, means: seq<NodeId>, stds: seq<NodeId>)
    requires Standardized(d1, d0, x, means, stds, rows, col) && Extends(d0, d1) && Extends(d1, d2)
    requires col < |x[0]| && |column| == |x| && forall i :: 0 <= i < |x| ==> col < |x[i]| && column[i] == x[i][col]
    requires Within(d1, column) && col < |means| && col < |stds| && d1[stds[col]] != 0.0
    requires ColumnAppended(d1, d2, column, rows, next, col, means, stds)
    ensures Standardized(d2, d0, x, means, stds, next, col + 1)
  {
    assert col < SharedColumns(x) by {
      var i :| 0 <= i < |x| && |x[i]| == SharedColumns(x);
    }
    assert ColumnFault(d0, x, means, stds, col) == None;
    assert |next| == |x|;
    forall i | 0 <= i < |next|
      ensures |next[i]| == col + 1
    {
      var before := if i < |rows| then rows[i] else [];
      assert |next[i]| == |before| + 1;
    }
    forall i, c | 0 <= i < |next| && 0 <= c < col + 1
      ensures EntryStandardized(d2, d0, x, means, stds, next[i][c], i, c)
    {
      NextEntry(d0, d1, d2, x, column, rows, next, col, means, stds, i, c);
    }
  }

  /** Entry `c` of row `i` after one column of `transform`'s outer loop:
      kept from an earlier column, or appended for this one. */
  lemma NextEntry(d0: seq<real>, d1: seq<real>, d2: seq<real>, x: seq<seq<NodeId>>, column: seq<NodeId>,
                  rows: seq<seq<NodeId>>, next: seq<seq<NodeId>>, col: nat, means: seq<NodeId>, stds: seq<NodeId>,
                  i: nat, c: nat)
    requires Standardized(d1, d0, x, means, stds, rows, col) && Extends(d0, d1) && Extends(d1, d2)
    requires |column| == |x| && i < |x| && col < |x[i]| && column[i] == x[i][col]
    requires Within(d1, column) && col < |means| && col < |stds| && d1[stds[col]] != 0.0
    requires ColumnAppended(d1, d2, column, rows, next, col, means, stds)
    requires c <= col
    ensures i < |next| && c < |next[i]|
    ensures EntryStandardized(d2, d0, x, means, stds, next[i][c], i, c)
  {
    var before := if i < |rows| then rows[i] else [];
    assert |next[i]| == |before| + 1 && next[i][..|before|] == before;
    assert |before| == col;
    if c < col {
      assert next[i][c] == before[c] == rows[i][c];
      KeptEntry(d0, d1, d2, x, means, stds, rows, col, i, c);
    } else {
      NewEntry(d0, d1, d2, x, means, stds, col, i, next[i][col]);
    }
  }

  /** An entry standardised in an earlier column keeps its node and value. */
  lemma KeptEntry(d0: seq<real>, d1: seq<real>, d2: seq<real>, x: seq<seq<NodeId>>,
                  means: seq<NodeId>, stds: seq<NodeId>, rows: seq<seq<NodeId>>, col: nat, i: nat, c: nat)
    requires Standardized(d1, d0, x, means, stds, rows, col) && Extends(d1, d2)
    requires i < |rows| && c < col
    ensures EntryStandardized(d2, d0, x, means, stds, rows[i][c], i, c)
  {
    assert EntryStandardized(d1, d0, x, means, stds, rows[i][c], i, c);
  }

  /** An entry of the new column, standardised from the `data` `d1`, is
      standardised from `d0` too, since `d1` only extends `d0`. */
  lemma NewEntry(d0: seq<real>, d1: seq<real>, d2: seq<real>, x: seq<seq<NodeId>>,
                 means: seq<NodeId>, stds: seq<NodeId>, col: nat, i: nat, e: NodeId)
    requires Extends(d0, d1) && RowsWithin(d0, x) && Within(d0, means) && Within(d0, stds)
    requires i < |x| && col < |x[i]| && col < |means| && col < |stds| && d1[stds[col]] != 0.0
    requires |d1| <= e < |d2| && d2[e] == Standardize(d1[x[i][col]], d1[means[col]], d1[stds[col]])
    ensures EntryStandardized(d2, d0, x, means, stds, e, i, col)
  {
    assert x[i][col] in x[i];
  }

  // ---------------------------------------------------------------------------
  // Category encoders

  /** In a list without repeats, the position of each entry is its index. */
  lemma IndexOfDistinct<T>(s: seq<T>, j: nat)
    requires Distinct(s) && j < |s|
    ensures Index(s, s[j]) == Ok(j)
  {
  }

  /** What `fit` leaves as categories after `before` saw the values `xs`:
      the old categories first, then exactly the values of `xs` that were not
      among them, each once, in the order they first appear in `xs`. */
  ghost predicate Learned<T>(before: seq<T>, after: seq<T>, xs: seq<T>)
  {
    |before| <= |after| && after[..|before|] == before &&
    (forall t :: 0 <= t < |xs| ==> xs[t] in after) &&
    (forall k :: |before| <= k < |after| ==> after[k] in xs && after[k] !in before) &&
    (forall i, j :: |before| <= i < j < |after| && after[i] in xs && after[j] in xs ==>
       IndexOf(xs, after[i]) < IndexOf(xs, after[j]))
  }

  /** The new categories are pairwise different, so `fit` keeps a list
      without repeats without repeats. */
  lemma LearnedDistinct<T>(before: seq<T>, after: seq<T>, xs: seq<T>)
    requires Distinct(before) && Learned(before, after, xs)
    ensures Distinct(after)
  {
    forall i, j | 0 <= i < j < |after|
      ensures after[i] != after[j]
    {
      if j < |before| {
        assert after[i] == before[i] && after[j] == before[j];
      } else if i < |before| {
        assert after[i] == before[i];
      }
    }
  }

  /** The loop of `fit` after the first `t` values of `xs`. */
  ghost predicate LearnedUpTo<T>(categories: seq<T>, r: seq<T>, xs: seq<T>, t: nat)
  {
    t <= |xs| && |categories| <= |r| && r[..|categories|] == categories &&
    (forall u :: 0 <= u < t ==> xs[u] in r) &&
    (forall k :: |categories| <= k < |r| ==> r[k] !in categories) &&
    (forall k :: |categories| <= k < |r| ==> r[k] in xs && IndexOf(xs, r[k]) < t) &&
    (forall i, j :: |categories| <= i < j < |r| && r[i] in xs && r[j] in xs ==>
       IndexOf(xs, r[i]) < IndexOf(xs, r[j]))
  }

  /** One round of `fit`'s loop: value `t` is appended when it is new. */
  lemma LearnStep<T>(categories: seq<T>, r: seq<T>, xs: seq<T>, t: nat)
    requires LearnedUpTo(categories, r, xs, t) && t < |xs|
    ensures LearnedUpTo(categories, if xs[t] in r then r else r + [xs[t]], xs, t + 1)
  {
    var v := xs[t];
    if v !in r {
      assert forall u :: 0 <= u < t ==> xs[u] != v;
      assert IndexOf(xs, v) == t;
      assert v !in categories by {
        assert categories == r[..|categories|];
      }
      var r' := r + [v];
      assert r'[..|categories|] == categories;
    }
  }

  /** The loop of `fit`: every value not yet among the categories is
      appended. */
  method Learn<T(==)>(categories: seq<T>, xs: seq<T>) returns (r: seq<T>)
    ensures Learned(categories, r, xs)
  {
    r := categories;
    var t := 0;
    while t < |xs|
      invariant LearnedUpTo(categories, r, xs, t)
    {
      LearnStep(categories, r, xs, t);
      var v := xs[t];
      if v !in r {
        r := r + [v];
      }
      t := t + 1;
    }
  }

  /** OneHotEncoder. */
  class OneHotEncoder<T(==)> {
    var categories: seq<T>

    /** The categories never repeat. */
    ghost predicate Valid()
      reads this
    {
      Distinct(categories)
    }

    constructor ()
      ensures Valid() && categories == []
    {
      categories := [];
    }

    method Fit(xs: seq<T>)
      requires Valid()
      modifies this
      ensures Valid() && Learned(old(categories), categories, xs)
    {
      categories := Learn(categories, xs);
      LearnedDistinct(old(categories), categories, xs);
    }

    /** `transform`: one row per value, with a 1 in the column of its
        category and 0 elsewhere; a value `fit` never saw gets a row of 0s. */
    method Transform(xs: seq<T>) returns (rows: seq<seq<int>>)
      requires Valid()
      ensures |rows| == |xs| && forall t :: 0 <= t < |xs| ==> |rows[t]| == |categories|
      ensures forall t, j :: 0 <= t < |xs| && 0 <= j < |categories| ==>
                rows[t][j] == if Index(categories, xs[t]) == Ok(j) then 1 else 0
    {
      rows := [];
      var t := 0;
      while t < |xs|
        invariant 0 <= t <= |xs| && |rows| == t
        invariant forall u :: 0 <= u < t ==> |rows[u]| == |categories|
        invariant forall u, j :: 0 <= u < t && 0 <= j < |categories| ==>
                    rows[u][j] == if Index(categories, xs[u]) == Ok(j) then 1 else 0
      {
        var v, cats := xs[t], categories;
        var row := seq(|cats|, j requires 0 <= j < |cats| => if v == cats[j] then 1 else 0);
        forall j | 0 <= j < |cats|
          ensures row[j] == if Index(cats, v) == Ok(j) then 1 else 0
        {
          IndexOfDistinct(cats, j);
        }
        rows := rows + [row];
        t := t + 1;
      }
    }
  }

  /** LabelEncoder. */
  class LabelEncoder<T(==)> {
    var categories: seq<T>

    /** The categories never repeat. */
    ghost predicate Valid()
      reads this
    {
      Distinct(categories)
    }

    constructor ()
      ensures Valid() && categories == []
    {
      categories := [];
    }

    method Fit(xs: seq<T>)
      requires Valid()
      modifies this
      ensures Valid() && Learned(old(categories), categories, xs)
    {
      categories := Learn(categories, xs);
      LearnedDistinct(old(categories), categories, xs);
    }

    /** `transform`: the index of each value's category; ValueError at the
        first value `fit` never saw. Decoding the labels gives the values
        back. */
    function Transform(xs: seq<T>): (r: Result<seq<nat>>)
      reads this
      ensures r.Ok? <==> forall t :: 0 <= t < |xs| ==> xs[t] in categories
      ensures r.Err? ==> r.error == ValueError
      ensures r.Ok? ==> |r.value| == |xs| && forall t :: 0 <= t < |xs| ==>
                r.value[t] < |categories| && categories[r.value[t]] == xs[t] &&
                forall k :: 0 <= k < r.value[t] ==> categories[k] != xs[t]
    {
      if xs == [] then Ok([])
      else
        var head :- Index(categories, xs[0]);
        var rest :- Transform(xs[1..]);
        assert forall t :: 1 <= t < |xs| ==> xs[t] == xs[1..][t - 1];
        Ok([head] + rest)
    }
  }
}
