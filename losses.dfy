/** The losses of lib/metrics/losses.py, composed from the containers of
    lib/original_backend/linear_algebra.py: the only containers that have
    every operation the losses use (`1 - m`, `row_sum().sum()`). Each loss
    divides by the number of rows of `actual`, and two of them read only
    column 0 of their `col_sum()`. */
module Losses {
  import opened Common
  import opened OriginalBackend

  /** `m ** p`. */
  function Power<V>(ops: Ops<V>, m: Rows<V>, p: real): (r: Rows<V>)
    requires IsMatrix(m)
    ensures IsMatrix(r) && |r| == |m| && forall i :: 0 <= i < |m| ==> |r[i]| == |m[i]|
    ensures forall i, j :: 0 <= i < |r| && 0 <= j < |r[i]| ==>
              i < |m| && j < |m[i]| && r[i][j] == Box(ops, ops.pow(m[0][0], p), ops.pow(m[i][j], p))
  {
    MatrixMap(ops, e => ops.pow(e, p), m)
  }

  /** `m.ln()`. */
  function Logs<V>(ops: Ops<V>, m: Rows<V>): (r: Rows<V>)
    requires IsMatrix(m)
    ensures IsMatrix(r) && |r| == |m| && forall i :: 0 <= i < |m| ==> |r[i]| == |m[i]|
    ensures forall i, j :: 0 <= i < |r| && 0 <= j < |r[i]| ==>
              i < |m| && j < |m[i]| && r[i][j] == Box(ops, ops.ln(m[0][0]), ops.ln(m[i][j]))
  {
    MatrixMap(ops, ops.ln, m)
  }

  /** `(actual - predicted) ** 2`. */
  function SquaredErrors<V>(ops: Ops<V>, a: Rows<V>, p: Rows<V>): (r: Rows<V>)
    requires IsMatrix(a) && IsMatrix(p)
    ensures IsMatrix(r) && |r| == Min(|a|, |p|)
    ensures forall i :: 0 <= i < |r| ==> |r[i]| == Min(|a[i]|, |p[i]|)
    ensures var d := MatrixSub(ops, a, MatrixOperand(p));
            forall i, j :: 0 <= i < |r| && 0 <= j < |r[i]| ==>
              i < |d| && j < |d[i]| && r[i][j] == Box(ops, ops.pow(d[0][0], 2.0), ops.pow(d[i][j], 2.0))
  {
    Power(ops, MatrixSub(ops, a, MatrixOperand(p)), 2.0)
  }

  /** `m` and `m2` have as many rows, every row has an entry 0, and those
      entries agree. */
  ghost predicate SameFirstColumn<V>(m: Rows<V>, m2: Rows<V>)
  {
    |m| == |m2| &&
    forall i :: 0 <= i < |m| ==> 0 < |m[i]| && 0 < |m2[i]| && m[i][0] == m2[i][0]
  }

  /** `mean_squared_error(actual, predicted)`: the squared differences of
      column 0, summed, over the number of rows of `actual`; IndexError when
      some row of the squared differences is shorter than its first. */
  function MeanSquaredError<V>(ops: Ops<V>, a: Rows<V>, p: Rows<V>): (r: Result<Entry<V>>)
    requires IsMatrix(a) && IsMatrix(p)
    ensures r.Err? <==> Ragged(SquaredErrors(ops, a, p))
    ensures r.Err? ==> r.error == IndexError
    ensures r.Ok? ==> r.value == ops.div(Promoted(ops, SumOf(ops, Column(SquaredErrors(ops, a, p), 0))), Num(|a| as real))
  {
    var sums :- ColSums(ops, SquaredErrors(ops, a, p));
    Ok(ops.div(sums.values[0], Num(|a| as real)))
  }

  /** `negative_log_likelihood(actual, predicted)`: minus the sum over every
      row of `actual * predicted.ln()`, over the number of rows of
      `actual`. */
  function NegativeLogLikelihood<V>(ops: Ops<V>, a: Rows<V>, p: Rows<V>): (r: Entry<V>)
    requires IsMatrix(a) && IsMatrix(p)
  {
    var sums := MatrixRowSum(ops, Hits(ops, a, p));
    ops.div(ops.neg(SumOf(ops, sums.values)), Num(|a| as real))
  }

  /** `actual * predicted.ln()`. */
  function Hits<V>(ops: Ops<V>, a: Rows<V>, p: Rows<V>): (r: Rows<V>)
    requires IsMatrix(a) && IsMatrix(p)
    ensures IsMatrix(r) && |r| == Min(|a|, |p|)
  {
    MatrixMul(ops, a, Logs(ops, p))
  }

  /** `(1 - actual) * (1 - predicted).ln()`. */
  function Misses<V>(ops: Ops<V>, a: Rows<V>, p: Rows<V>): (r: Rows<V>)
    requires IsMatrix(a) && IsMatrix(p)
    ensures IsMatrix(r) && |r| == Min(|a|, |p|)
  {
    MatrixMul(ops, MatrixRSub(ops, a, 1.0), Logs(ops, MatrixRSub(ops, p, 1.0)))
  }

  /** `actual * predicted.ln() + (1 - actual) * (1 - predicted).ln()`:
      the two matrices added entry by entry. */
  function CrossEntropyTerms<V>(ops: Ops<V>, a: Rows<V>, p: Rows<V>): (r: Rows<V>)
    requires IsMatrix(a) && IsMatrix(p)
    ensures IsMatrix(r) && |r| == Min(|a|, |p|)
    ensures var hits, misses := Hits(ops, a, p), Misses(ops, a, p);
            forall i, j :: 0 <= i < |r| && 0 <= j < |r[i]| ==>
              i < |hits| && i < |misses| && j < |hits[i]| && j < |misses[i]| &&
              r[i][j] == Box(ops, ops.add(hits[0][0], misses[0][0]), ops.add(hits[i][j], misses[i][j]))
  {
    MatrixAdd(ops, Hits(ops, a, p), MatrixOperand(Misses(ops, a, p)))
  }

  /** `binary_cross_entropy(actual, predicted)`: minus the column-0 sum of
      the cross-entropy terms, over the number of rows of `actual`;
      IndexError when some row of the terms is shorter than its first. */
  function BinaryCrossEntropy<V>(ops: Ops<V>, a: Rows<V>, p: Rows<V>): (r: Result<Entry<V>>)
    requires IsMatrix(a) && IsMatrix(p)
    ensures r.Err? <==> Ragged(CrossEntropyTerms(ops, a, p))
    ensures r.Err? ==> r.error == IndexError
    ensures r.Ok? ==> r.value == ops.div(ops.neg(Promoted(ops, SumOf(ops, Column(CrossEntropyTerms(ops, a, p), 0)))), Num(|a| as real))
  {
    var sums :- ColSums(ops, CrossEntropyTerms(ops, a, p));
    Ok(ops.div(ops.neg(sums.values[0]), Num(|a| as real)))
  }

  /** Column 0 of the squared errors depends on column 0 of `actual` and
      `predicted` only, and on how many rows they have. */
  lemma SquaredErrorsColumnZero<V>(ops: Ops<V>, a: Rows<V>, p: Rows<V>, a2: Rows<V>, p2: Rows<V>)
    requires IsMatrix(a) && IsMatrix(p) && IsMatrix(a2) && IsMatrix(p2)
    requires SameFirstColumn(a, a2) && SameFirstColumn(p, p2)
    ensures SameFirstColumn(SquaredErrors(ops, a, p), SquaredErrors(ops, a2, p2))
    ensures Column(SquaredErrors(ops, a, p), 0) == Column(SquaredErrors(ops, a2, p2), 0)
  {
    var d := MatrixSub(ops, a, MatrixOperand(p));
    var d2 := MatrixSub(ops, a2, MatrixOperand(p2));
    var n := Negated(ops, p);
    var n2 := Negated(ops, p2);
    forall i | 0 <= i < |p|
      ensures n[i][0] == n2[i][0]
    {
      assert n[i][0] == Box(ops, ops.neg(p[0][0]), ops.neg(p[i][0]));
    }
    forall i | 0 <= i < |d|
      ensures d[i][0] == d2[i][0]
    {
      assert d[i][0] == Box(ops, ops.add(a[0][0], n[0][0]), ops.add(a[i][0], n[i][0]));
      assert d2[i][0] == Box(ops, ops.add(a2[0][0], n2[0][0]), ops.add(a2[i][0], n2[i][0]));
    }
    var s := SquaredErrors(ops, a, p);
    var s2 := SquaredErrors(ops, a2, p2);
    forall i | 0 <= i < |s|
      ensures s[i][0] == s2[i][0]
    {
      assert s[i][0] == Box(ops, ops.pow(d[0][0], 2.0), ops.pow(d[i][0], 2.0));
      assert s2[i][0] == Box(ops, ops.pow(d2[0][0], 2.0), ops.pow(d2[i][0], 2.0));
    }
  }

  /** So whenever neither raises, the mean squared error of two pairs of
      matrices that agree in column 0 and in their numbers of rows is the
      same: the other columns are never read. */
  lemma MeanSquaredErrorReadsColumnZero<V>(ops: Ops<V>, a: Rows<V>, p: Rows<V>, a2: Rows<V>, p2: Rows<V>)
    requires IsMatrix(a) && IsMatrix(p) && IsMatrix(a2) && IsMatrix(p2)
    requires SameFirstColumn(a, a2) && SameFirstColumn(p, p2)
    requires MeanSquaredError(ops, a, p).Ok? && MeanSquaredError(ops, a2, p2).Ok?
    ensures MeanSquaredError(ops, a, p) == MeanSquaredError(ops, a2, p2)
  {
    SquaredErrorsColumnZero(ops, a, p, a2, p2);
  }

  /** `m.ln()` keeps two matrices' agreement in column 0. */
  lemma LogsColumnZero<V>(ops: Ops<V>, m: Rows<V>, m2: Rows<V>)
    requires IsMatrix(m) && IsMatrix(m2) && SameFirstColumn(m, m2)
    ensures SameFirstColumn(Logs(ops, m), Logs(ops, m2))
  {
    var l, l2 := Logs(ops, m), Logs(ops, m2);
    forall i | 0 <= i < |l|
      ensures 0 < |l[i]| && 0 < |l2[i]| && l[i][0] == l2[i][0]
    {
      assert l[i][0] == Box(ops, ops.ln(m[0][0]), ops.ln(m[i][0]));
      assert l2[i][0] == Box(ops, ops.ln(m2[0][0]), ops.ln(m2[i][0]));
    }
  }

  /** `1 - m` keeps two matrices' agreement in column 0. */
  lemma RSubColumnZero<V>(ops: Ops<V>, m: Rows<V>, m2: Rows<V>)
    requires IsMatrix(m) && IsMatrix(m2) && SameFirstColumn(m, m2)
    ensures SameFirstColumn(MatrixRSub(ops, m, 1.0), MatrixRSub(ops, m2, 1.0))
  {
    var n, n2 := Negated(ops, m), Negated(ops, m2);
    forall i | 0 <= i < |m|
      ensures 0 < |n[i]| && 0 < |n2[i]| && n[i][0] == n2[i][0]
    {
      assert n[i][0] == Box(ops, ops.neg(m[0][0]), ops.neg(m[i][0]));
      assert n2[i][0] == Box(ops, ops.neg(m2[0][0]), ops.neg(m2[i][0]));
    }
  }

  /** `m * o` keeps agreement in column 0. */
  lemma MulColumnZero<V>(ops: Ops<V>, m: Rows<V>, o: Rows<V>, m2: Rows<V>, o2: Rows<V>)
    requires IsMatrix(m) && IsMatrix(o) && IsMatrix(m2) && IsMatrix(o2)
    requires SameFirstColumn(m, m2) && SameFirstColumn(o, o2)
    ensures SameFirstColumn(MatrixMul(ops, m, o), MatrixMul(ops, m2, o2))
  {
    var r, r2 := MatrixMul(ops, m, o), MatrixMul(ops, m2, o2);
    forall i | 0 <= i < |r|
      ensures 0 < |r[i]| && 0 < |r2[i]| && r[i][0] == r2[i][0]
    {
      assert r[i][0] == Box(ops, ops.mul(m[0][0], o[0][0]), ops.mul(m[i][0], o[i][0]));
      assert r2[i][0] == Box(ops, ops.mul(m2[0][0], o2[0][0]), ops.mul(m2[i][0], o2[i][0]));
    }
  }

  /** `m + o` keeps agreement in column 0. */
  lemma AddColumnZero<V>(ops: Ops<V>, m: Rows<V>, o: Rows<V>, m2: Rows<V>, o2: Rows<V>)
    requires IsMatrix(m) && IsMatrix(o) && IsMatrix(m2) && IsMatrix(o2)
    requires SameFirstColumn(m, m2) && SameFirstColumn(o, o2)
    ensures SameFirstColumn(MatrixAdd(ops, m, MatrixOperand(o)), MatrixAdd(ops, m2, MatrixOperand(o2)))
  {
    var r, r2 := MatrixAdd(ops, m, MatrixOperand(o)), MatrixAdd(ops, m2, MatrixOperand(o2));
    forall i | 0 <= i < |r|
      ensures 0 < |r[i]| && 0 < |r2[i]| && r[i][0] == r2[i][0]
    {
      assert r[i][0] == Box(ops, ops.add(m[0][0], o[0][0]), ops.add(m[i][0], o[i][0]));
      assert r2[i][0] == Box(ops, ops.add(m2[0][0], o2[0][0]), ops.add(m2[i][0], o2[i][0]));
    }
  }

  /** Column 0 of the cross-entropy terms depends on column 0 of `actual`
      and `predicted` only, and on how many rows they have. */
  lemma CrossEntropyTermsColumnZero<V>(ops: Ops<V>, a: Rows<V>, p: Rows<V>, a2: Rows<V>, p2: Rows<V>)
    requires IsMatrix(a) && IsMatrix(p) && IsMatrix(a2) && IsMatrix(p2)
    requires SameFirstColumn(a, a2) && SameFirstColumn(p, p2)
    ensures SameFirstColumn(CrossEntropyTerms(ops, a, p), CrossEntropyTerms(ops, a2, p2))
    ensures Column(CrossEntropyTerms(ops, a, p), 0) == Column(CrossEntropyTerms(ops, a2, p2), 0)
  {
    var lp, lp2 := Logs(ops, p), Logs(ops, p2);
    LogsColumnZero(ops, p, p2);
    var hits, hits2 := MatrixMul(ops, a, lp), MatrixMul(ops, a2, lp2);
    MulColumnZero(ops, a, lp, a2, lp2);
    var ra, ra2 := MatrixRSub(ops, a, 1.0), MatrixRSub(ops, a2, 1.0);
    RSubColumnZero(ops, a, a2);
    var rp, rp2 := MatrixRSub(ops, p, 1.0), MatrixRSub(ops, p2, 1.0);
    RSubColumnZero(ops, p, p2);
    var lr, lr2 := Logs(ops, rp), Logs(ops, rp2);
    LogsColumnZero(ops, rp, rp2);
    var misses, misses2 := MatrixMul(ops, ra, lr), MatrixMul(ops, ra2, lr2);
    MulColumnZero(ops, ra, lr, ra2, lr2);
    AddColumnZero(ops, hits, misses, hits2, misses2);
    var t, t2 := CrossEntropyTerms(ops, a, p), CrossEntropyTerms(ops, a2, p2);
    assert hits == Hits(ops, a, p) && misses == Misses(ops, a, p);
    assert hits2 == Hits(ops, a2, p2) && misses2 == Misses(ops, a2, p2);
    assert t == MatrixAdd(ops, hits, MatrixOperand(misses));
    assert t2 == MatrixAdd(ops, hits2, MatrixOperand(misses2));
  }

  /** Whenever neither raises, the binary cross-entropy of two pairs of
      matrices that agree in column 0 and in their numbers of rows is the
      same. */
  lemma BinaryCrossEntropyReadsColumnZero<V>(ops: Ops<V>, a: Rows<V>, p: Rows<V>, a2: Rows<V>, p2: Rows<V>)
    requires IsMatrix(a) && IsMatrix(p) && IsMatrix(a2) && IsMatrix(p2)
    requires SameFirstColumn(a, a2) && SameFirstColumn(p, p2)
    requires BinaryCrossEntropy(ops, a, p).Ok? && BinaryCrossEntropy(ops, a2, p2).Ok?
    ensures BinaryCrossEntropy(ops, a, p) == BinaryCrossEntropy(ops, a2, p2)
  {
    CrossEntropyTermsColumnZero(ops, a, p, a2, p2);
  }

  // ---------------------------------------------------------------------------
  // The losses read as numbers

  /** The entries' `ln()` computes `ln` on their numbers. */
  ghost predicate LnExact<V(!new)>(ops: Ops<V>, data: V -> real, ln: real -> real)
  {
    forall e :: DataOf(data, ops.ln(e)) == ln(DataOf(data, e))
  }

  /** The numbers a matrix's entries stand for, row by row. */
  function RowsData<V>(data: V -> real, m: Rows<V>): (r: seq<seq<real>>)
    ensures |r| == |m| && forall i :: 0 <= i < |m| ==> r[i] == Datas(data, m[i])
  {
    seq(|m|, i requires 0 <= i < |m| => Datas(data, m[i]))
  }

  /** `(a - p)²`: one squared error. */
  function SquaredErrorOf(a: real, p: real): real
  {
    (a - p) * (a - p)
  }

  /** `a * ln(p)`: what a label `a` and a prediction `p` add to the
      log-likelihood. */
  function HitOf(a: real, p: real, ln: real -> real): real
  {
    a * ln(p)
  }

  /** `(1 - a) * ln(1 - p)`: the same for the complementary outcome. */
  function MissOf(a: real, p: real, ln: real -> real): real
  {
    (1.0 - a) * ln(1.0 - p)
  }

  /** `a * ln(p) + (1 - a) * ln(1 - p)`: one binary cross-entropy term. */
  function CrossEntropyOf(a: real, p: real, ln: real -> real): real
  {
    HitOf(a, p, ln) + MissOf(a, p, ln)
  }

  /** `sum over j of a[j] * ln(p[j])`, over the shorter row. */
  function RowLikelihood(a: seq<real>, p: seq<real>, ln: real -> real): real
  {
    Sum(seq(Min(|a|, |p|), j requires 0 <= j < Min(|a|, |p|) => HitOf(a[j], p[j], ln)))
  }

  /** The log-likelihood of `p` under the labels `a`: every row paired
      with its partner, over the shorter of the two. */
  function LogLikelihood(a: seq<seq<real>>, p: seq<seq<real>>, ln: real -> real): real
  {
    Sum(RowLikelihoods(a, p, ln))
  }

  /** A total over `n` rows, per row. */
  function PerRow(s: real, n: nat): real
    requires n > 0
  {
    s / n as real
  }

  /** The log-likelihood of every row, over the shorter of the two. */
  function RowLikelihoods(a: seq<seq<real>>, p: seq<seq<real>>, ln: real -> real): (r: seq<real>)
    ensures |r| == Min(|a|, |p|) && forall i :: 0 <= i < |r| ==> r[i] == RowLikelihood(a[i], p[i], ln)
  {
    seq(Min(|a|, |p|), i requires 0 <= i < Min(|a|, |p|) => RowLikelihood(a[i], p[i], ln))
  }

  /** One entry of `m * other`, read as a number. */
  lemma MulEntryExact<V(!new)>(ops: Ops<V>, data: V -> real, m: Rows<V>, o: Rows<V>, i: nat, j: nat)
    requires Exact(ops, data) && IsMatrix(m) && IsMatrix(o)
    requires i < |MatrixMul(ops, m, o)| && j < |MatrixMul(ops, m, o)[i]|
    ensures i < |m| && i < |o| && j < |m[i]| && j < |o[i]|
    ensures DataOf(data, MatrixMul(ops, m, o)[i][j]) == DataOf(data, m[i][j]) * DataOf(data, o[i][j])
  {
    var r := MatrixMul(ops, m, o);
    assert r[i][j] == Box(ops, ops.mul(m[0][0], o[0][0]), ops.mul(m[i][j], o[i][j]));
  }

  /** One entry of `m.ln()`, read as a number. */
  lemma LogsEntryExact<V(!new)>(ops: Ops<V>, data: V -> real, ln: real -> real, m: Rows<V>, i: nat, j: nat)
    requires Exact(ops, data) && LnExact(ops, data, ln) && IsMatrix(m)
    requires i < |m| && j < |m[i]|
    ensures i < |Logs(ops, m)| && j < |Logs(ops, m)[i]|
    ensures DataOf(data, Logs(ops, m)[i][j]) == ln(DataOf(data, m[i][j]))
  {
    var r := Logs(ops, m);
    assert r[i][j] == Box(ops, ops.ln(m[0][0]), ops.ln(m[i][j]));
  }

  /** One entry of `1 - m`, read as a number. */
  lemma ComplementExact<V(!new)>(ops: Ops<V>, data: V -> real, m: Rows<V>, i: nat, j: nat)
    requires Exact(ops, data) && IsMatrix(m)
    requires i < |MatrixRSub(ops, m, 1.0)| && j < |MatrixRSub(ops, m, 1.0)[i]|
    ensures i < |m| && j < |m[i]|
    ensures DataOf(data, MatrixRSub(ops, m, 1.0)[i][j]) == 1.0 - DataOf(data, m[i][j])
  {
    var n := Negated(ops, m);
    var one := Val(ops.make(Num(1.0)));
    assert MatrixRSub(ops, m, 1.0)[i][j] == Box(ops, ops.add(one, n[0][0]), ops.add(one, n[i][j]));
    assert n[i][j] == Box(ops, ops.neg(m[0][0]), ops.neg(m[i][j]));
  }

  /** `first`-boxed `e ** 2`, read as a number, when `e` stands for `u - w`. */
  lemma SquareExact<V(!new)>(ops: Ops<V>, data: V -> real, first: Entry<V>, e: Entry<V>, u: real, w: real)
    requires Exact(ops, data) && DataOf(data, e) == u - w
    ensures DataOf(data, Box(ops, first, ops.pow(e, 2.0))) == SquaredErrorOf(u, w)
  {
  }

  /** One squared error, read as a number. */
  lemma SquaredErrorExact<V(!new)>(ops: Ops<V>, data: V -> real, a: Rows<V>, p: Rows<V>, i: nat, j: nat)
    requires Exact(ops, data) && IsMatrix(a) && IsMatrix(p)
    requires i < |SquaredErrors(ops, a, p)| && j < |SquaredErrors(ops, a, p)[i]|
    ensures i < |a| && i < |p| && j < |a[i]| && j < |p[i]|
    ensures DataOf(data, SquaredErrors(ops, a, p)[i][j]) == SquaredErrorOf(DataOf(data, a[i][j]), DataOf(data, p[i][j]))
  {
    var d := MatrixSub(ops, a, MatrixOperand(p));
    assert SquaredErrors(ops, a, p)[i][j] == Box(ops, ops.pow(d[0][0], 2.0), ops.pow(d[i][j], 2.0));
    MatrixSubMatrixExact(ops, data, a, p);
    SquareExact(ops, data, ops.pow(d[0][0], 2.0), d[i][j], DataOf(data, a[i][j]), DataOf(data, p[i][j]));
  }

  /** Read as numbers, the squared errors are `(a - p)²` entry by entry. */
  lemma SquaredErrorsExact<V(!new)>(ops: Ops<V>, data: V -> real, a: Rows<V>, p: Rows<V>)
    requires Exact(ops, data) && IsMatrix(a) && IsMatrix(p)
    ensures var r := SquaredErrors(ops, a, p);
            forall i, j :: 0 <= i < |r| && 0 <= j < |r[i]| ==>
              i < |a| && i < |p| && j < |a[i]| && j < |p[i]| &&
              DataOf(data, r[i][j]) == SquaredErrorOf(DataOf(data, a[i][j]), DataOf(data, p[i][j]))
  {
    var r := SquaredErrors(ops, a, p);
    forall i, j | 0 <= i < |r| && 0 <= j < |r[i]|
      ensures i < |a| && i < |p| && j < |a[i]| && j < |p[i]| &&
              DataOf(data, r[i][j]) == SquaredErrorOf(DataOf(data, a[i][j]), DataOf(data, p[i][j]))
    {
      SquaredErrorExact(ops, data, a, p, i, j);
    }
  }

  /** One entry of `actual * predicted.ln()`, read as a number. */
  lemma HitExact<V(!new)>(ops: Ops<V>, data: V -> real, ln: real -> real, a: Rows<V>, p: Rows<V>, i: nat, j: nat)
    requires Exact(ops, data) && LnExact(ops, data, ln) && IsMatrix(a) && IsMatrix(p)
    requires i < |Hits(ops, a, p)| && j < |Hits(ops, a, p)[i]|
    ensures i < |a| && i < |p| && j < |a[i]| && j < |p[i]|
    ensures DataOf(data, Hits(ops, a, p)[i][j]) == HitOf(DataOf(data, a[i][j]), DataOf(data, p[i][j]), ln)
  {
    MulEntryExact(ops, data, a, Logs(ops, p), i, j);
    LogsEntryExact(ops, data, ln, p, i, j);
  }

  /** One entry of `m * other`, read as a number, when the entry of `m`
      stands for `1 - u` and the entry of `other` for `ln(c)`, `c = 1 - w`. */
  lemma MissProductExact<V(!new)>(ops: Ops<V>, data: V -> real, ln: real -> real, m: Rows<V>, o: Rows<V>, i: nat, j: nat,
                                  u: real, c: real, w: real)
    requires Exact(ops, data) && IsMatrix(m) && IsMatrix(o)
    requires i < |m| && i < |o| && j < |m[i]| && j < |o[i]|
    requires DataOf(data, m[i][j]) == 1.0 - u && DataOf(data, o[i][j]) == ln(c) && c == 1.0 - w
    ensures i < |MatrixMul(ops, m, o)| && j < |MatrixMul(ops, m, o)[i]|
    ensures DataOf(data, MatrixMul(ops, m, o)[i][j]) == MissOf(u, w, ln)
  {
    MulEntryExact(ops, data, m, o, i, j);
    MissOfFactors(DataOf(data, m[i][j]), DataOf(data, o[i][j]), u, c, w, ln);
  }

  /** `MissOf` is the product of its two factors. */
  lemma MissOfFactors(x: real, y: real, a: real, c: real, p: real, ln: real -> real)
    requires x == 1.0 - a && y == ln(c) && c == 1.0 - p
    ensures x * y == MissOf(a, p, ln)
  {
  }

  /** `first`-boxed `x + y`, read as a number. */
  lemma SumBoxExact<V(!new)>(ops: Ops<V>, data: V -> real, first: Entry<V>, x: Entry<V>, y: Entry<V>, u: real, v: real)
    requires Exact(ops, data) && DataOf(data, x) == u && DataOf(data, y) == v
    ensures DataOf(data, Box(ops, first, ops.add(x, y))) == u + v
  {
  }

  /** One entry of `(1 - actual) * (1 - predicted).ln()`, read as a number. */
  lemma MissExact<V(!new)>(ops: Ops<V>, data: V -> real, ln: real -> real, a: Rows<V>, p: Rows<V>, i: nat, j: nat)
    requires Exact(ops, data) && LnExact(ops, data, ln) && IsMatrix(a) && IsMatrix(p)
    requires i < |Misses(ops, a, p)| && j < |Misses(ops, a, p)[i]|
    ensures i < |a| && i < |p| && j < |a[i]| && j < |p[i]|
    ensures DataOf(data, Misses(ops, a, p)[i][j]) == MissOf(DataOf(data, a[i][j]), DataOf(data, p[i][j]), ln)
  {
    var ra, rp := MatrixRSub(ops, a, 1.0), MatrixRSub(ops, p, 1.0);
    var lr := Logs(ops, rp);
    assert j < |ra[i]| && j < |rp[i]| by {
      assert |MatrixMul(ops, ra, lr)[i]| == Min(|ra[i]|, |lr[i]|);
    }
    ComplementExact(ops, data, a, i, j);
    ComplementExact(ops, data, p, i, j);
    LogsEntryExact(ops, data, ln, rp, i, j);
    MissProductExact(ops, data, ln, ra, lr, i, j, DataOf(data, a[i][j]), DataOf(data, rp[i][j]), DataOf(data, p[i][j]));
  }

  /** One cross-entropy term, read as a number: `e` is how the sum of the
      two matrices builds entry `(i, j)`. */
  lemma CrossEntropyTermExact<V(!new)>(ops: Ops<V>, data: V -> real, ln: real -> real, a: Rows<V>, p: Rows<V>, i: nat, j: nat, e: Entry<V>)
    requires Exact(ops, data) && LnExact(ops, data, ln) && IsMatrix(a) && IsMatrix(p)
    requires i < |Hits(ops, a, p)| && i < |Misses(ops, a, p)|
    requires j < |Hits(ops, a, p)[i]| && j < |Misses(ops, a, p)[i]|
    requires e == Box(ops, ops.add(Hits(ops, a, p)[0][0], Misses(ops, a, p)[0][0]),
                      ops.add(Hits(ops, a, p)[i][j], Misses(ops, a, p)[i][j]))
    ensures i < |a| && i < |p| && j < |a[i]| && j < |p[i]|
    ensures DataOf(data, e) == CrossEntropyOf(DataOf(data, a[i][j]), DataOf(data, p[i][j]), ln)
  {
    var hits, misses := Hits(ops, a, p), Misses(ops, a, p);
    var A, P := DataOf(data, a[i][j]), DataOf(data, p[i][j]);
    HitExact(ops, data, ln, a, p, i, j);
    MissExact(ops, data, ln, a, p, i, j);
    SumBoxExact(ops, data, ops.add(hits[0][0], misses[0][0]), hits[i][j], misses[i][j], HitOf(A, P, ln), MissOf(A, P, ln));
  }

  /** Read as numbers, the cross-entropy terms are
      `a * ln(p) + (1 - a) * ln(1 - p)` entry by entry. */
  lemma CrossEntropyTermsExact<V(!new)>(ops: Ops<V>, data: V -> real, ln: real -> real, a: Rows<V>, p: Rows<V>)
    requires Exact(ops, data) && LnExact(ops, data, ln) && IsMatrix(a) && IsMatrix(p)
    ensures var r := CrossEntropyTerms(ops, a, p);
            forall i, j :: 0 <= i < |r| && 0 <= j < |r[i]| ==>
              i < |a| && i < |p| && j < |a[i]| && j < |p[i]| &&
              DataOf(data, r[i][j]) == CrossEntropyOf(DataOf(data, a[i][j]), DataOf(data, p[i][j]), ln)
  {
    var r := CrossEntropyTerms(ops, a, p);
    forall i, j | 0 <= i < |r| && 0 <= j < |r[i]|
      ensures i < |a| && i < |p| && j < |a[i]| && j < |p[i]| &&
              DataOf(data, r[i][j]) == CrossEntropyOf(DataOf(data, a[i][j]), DataOf(data, p[i][j]), ln)
    {
      CrossEntropyTermExact(ops, data, ln, a, p, i, j, r[i][j]);
    }
  }

  /** Read as numbers, the negative log-likelihood is minus the
      log-likelihood of `predicted` under `actual`, over the number of rows
      of `actual`. */
  lemma NegativeLogLikelihoodExact<V(!new)>(ops: Ops<V>, data: V -> real, ln: real -> real, a: Rows<V>, p: Rows<V>)
    requires Exact(ops, data) && LnExact(ops, data, ln) && IsMatrix(a) && IsMatrix(p)
    ensures |a| > 0 ==>
              DataOf(data, NegativeLogLikelihood(ops, a, p)) ==
              -PerRow(LogLikelihood(RowsData(data, a), RowsData(data, p), ln), |a|)
  {
    var sums := MatrixRowSum(ops, Hits(ops, a, p));
    RowSumsExact(ops, data, ln, a, p);
    SumOfExact(ops, data, sums.values);
    if |a| > 0 {
      MeanOfNegatedExact(ops, data, SumOf(ops, sums.values), |a|, LogLikelihood(RowsData(data, a), RowsData(data, p), ln));
    }
  }

  /** `-x / n` for a positive count `n`, read as a number. */
  lemma MeanOfNegatedExact<V(!new)>(ops: Ops<V>, data: V -> real, x: Entry<V>, n: nat, s: real)
    requires Exact(ops, data) && n > 0 && DataOf(data, x) == s
    ensures DataOf(data, ops.div(ops.neg(x), Num(n as real))) == -PerRow(s, n)
  {
  }

  /** The row sums of `actual * predicted.ln()`, read as numbers, are the
      rows' log-likelihoods. */
  lemma RowSumsExact<V(!new)>(ops: Ops<V>, data: V -> real, ln: real -> real, a: Rows<V>, p: Rows<V>)
    requires Exact(ops, data) && LnExact(ops, data, ln) && IsMatrix(a) && IsMatrix(p)
    ensures Datas(data, MatrixRowSum(ops, Hits(ops, a, p)).values) ==
            RowLikelihoods(RowsData(data, a), RowsData(data, p), ln)
  {
    var m := Hits(ops, a, p);
    var sums := MatrixRowSum(ops, m);
    var rows := RowLikelihoods(RowsData(data, a), RowsData(data, p), ln);
    assert |sums.values| == |m| == |rows|;
    forall i | 0 <= i < |m|
      ensures Datas(data, sums.values)[i] == rows[i]
    {
      assert sums.values[i] == Box(ops, SumOf(ops, m[0]), SumOf(ops, m[i]));
      SumOfExact(ops, data, m[i]);
      RowLikelihoodExact(ops, data, ln, a, p, i);
    }
  }

  /** Row `i` of `actual * predicted.ln()`, read as numbers. */
  lemma RowLikelihoodExact<V(!new)>(ops: Ops<V>, data: V -> real, ln: real -> real, a: Rows<V>, p: Rows<V>, i: nat)
    requires Exact(ops, data) && LnExact(ops, data, ln) && IsMatrix(a) && IsMatrix(p)
    requires i < |Hits(ops, a, p)|
    ensures i < |a| && i < |p|
    ensures Sum(Datas(data, Hits(ops, a, p)[i])) == RowLikelihood(Datas(data, a[i]), Datas(data, p[i]), ln)
  {
    var row := Hits(ops, a, p)[i];
    var A, P := Datas(data, a[i]), Datas(data, p[i]);
    var terms := seq(Min(|A|, |P|), j requires 0 <= j < Min(|A|, |P|) => HitOf(A[j], P[j], ln));
    assert |row| == Min(|a[i]|, |p[i]|) by { assert row == MatrixMul(ops, a, Logs(ops, p))[i]; }
    forall j | 0 <= j < |row|
      ensures Datas(data, row)[j] == terms[j]
    {
      HitExact(ops, data, ln, a, p, i, j);
    }
    assert Datas(data, row) == terms;
  }
}
