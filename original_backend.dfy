/** The containers of lib/original_backend/linear_algebra.py. Their entries
    are objects of a `Value` class (lib/original_backend/value.py is not
    part of this model) or plain Python numbers. Everything an entry does
    under `+`, `*`, `**`, `max`, ... is an operation of `Ops`, left
    uninterpreted, so what is proved is the containers' own logic: shapes,
    which entries each operation pairs up, when the constructors wrap, and
    where IndexError, TypeError and AssertionError come from. */
module OriginalBackend {
  import opened Common
  import LinearAlgebra

  /** An entry: a `Value`, or a plain number. */
  datatype Entry<V> = Val(v: V) | Num(x: real)

  /** What entries do, supplied from outside. */
  datatype Ops<!V> = Ops(
    make: Entry<V> -> V,                    // `Value(x)`
    add: (Entry<V>, Entry<V>) -> Entry<V>,  // `a + b`
    sub: (Entry<V>, Entry<V>) -> Entry<V>,  // `a - b`
    mul: (Entry<V>, Entry<V>) -> Entry<V>,  // `a * b`
    div: (Entry<V>, Entry<V>) -> Entry<V>,  // `a / b`
    neg: Entry<V> -> Entry<V>,              // `-a`
    pow: (Entry<V>, real) -> Entry<V>,      // `a ** p`
    max: (Entry<V>, real) -> Entry<V>,      // `Value.max(a, c)`
    min: (Entry<V>, real) -> Entry<V>,      // `Value.min(a, c)`
    exp: Entry<V> -> Entry<V>,              // `Value.exp(a)`
    ln: Entry<V> -> Entry<V>,               // `Value.ln(a)`
    toInt: V -> int)                        // `int(key.data)`

  /** What both constructors make of entry `x` of a list whose first entry
      is `first`: `x` itself when `first` is a `Value`, else `Value(x)`. */
  function Box<V>(ops: Ops<V>, first: Entry<V>, x: Entry<V>): Entry<V>
  {
    if first.Val? then x else Val(ops.make(x))
  }

  /** `[f(a, b) for a, b in zip(xs, ys)]`. */
  function Zip<V>(f: (Entry<V>, Entry<V>) -> Entry<V>, xs: seq<Entry<V>>, ys: seq<Entry<V>>): (r: seq<Entry<V>>)
    ensures |r| == Min(|xs|, |ys|) && forall i :: 0 <= i < |r| ==> r[i] == f(xs[i], ys[i])
  {
    seq(Min(|xs|, |ys|), i requires 0 <= i < Min(|xs|, |ys|) => f(xs[i], ys[i]))
  }

  /** `[f(a) for a in xs]`. */
  function Each<V>(f: Entry<V> -> Entry<V>, xs: seq<Entry<V>>): (r: seq<Entry<V>>)
    ensures |r| == |xs| && forall i :: 0 <= i < |r| ==> r[i] == f(xs[i])
  {
    seq(|xs|, i requires 0 <= i < |xs| => f(xs[i]))
  }

  /** Python's `sum(xs)`: `0 + xs[0] + xs[1] + ...`, from the left. */
  function SumOf<V>(ops: Ops<V>, xs: seq<Entry<V>>): Entry<V>
  {
    if xs == [] then Num(0.0) else ops.add(SumOf(ops, xs[..|xs| - 1]), xs[|xs| - 1])
  }

  // ---------------------------------------------------------------------------
  // Vector
  // ---------------------------------------------------------------------------

  datatype Vector<V> = Vector(values: seq<Entry<V>>)

  /** Every `Vector` the constructor lets through has an entry. */
  predicate IsVector<V>(v: Vector<V>)
  {
    |v.values| > 0
  }

  /** `Vector(values)`: `values[0]` decides. A `Value` there keeps the list
      as it is (a copy); anything else has every entry made a `Value`. An
      empty list raises IndexError. */
  function NewVector<V>(ops: Ops<V>, xs: seq<Entry<V>>): (r: Result<Vector<V>>)
    ensures r.Ok? <==> xs != []
    ensures r.Err? ==> r.error == IndexError
    ensures r.Ok? ==> |r.value.values| == |xs| && r.value.values[0].Val?
    ensures r.Ok? ==> forall i :: 0 <= i < |xs| ==> r.value.values[i] == Box(ops, xs[0], xs[i])
    ensures r.Ok? && xs[0].Num? ==> forall i :: 0 <= i < |xs| ==> r.value.values[i].Val?
  {
    if xs == [] then Err(IndexError)
    else if xs[0].Val? then Ok(Vector(xs))
    else Ok(Vector(seq(|xs|, i requires 0 <= i < |xs| => Val(ops.make(xs[i])))))
  }

  /** Building a `Vector` from a `Vector`'s entries gives the same entries:
      its first entry is a `Value`, so nothing is wrapped twice. */
  lemma NewVectorStable<V>(ops: Ops<V>, xs: seq<Entry<V>>)
    requires xs != []
    ensures NewVector(ops, NewVector(ops, xs).value.values) == NewVector(ops, xs)
  {
  }

  /** The right operand of the containers' operators. */
  datatype Operand<V> =
    | MatrixOperand(rows: seq<seq<Entry<V>>>)
    | VectorOperand(vector: Vector<V>)
    | EntryOperand(e: Entry<V>)

  /** `v + other` and `v * other` (with `f` the entries' `+` or `*`): a
      Vector pairs entries with `zip`, a `Value` is combined with every
      entry, and anything else falls through both branches: the method
      returns None. */
  function VectorCombine<V>(ops: Ops<V>, f: (Entry<V>, Entry<V>) -> Entry<V>, v: Vector<V>, other: Operand<V>): (r: Option<Vector<V>>)
    requires IsVector(v) && (other.VectorOperand? ==> IsVector(other.vector))
    ensures r.Some? <==> other.VectorOperand? || (other.EntryOperand? && other.e.Val?)
    ensures other.VectorOperand? ==> (r.Some? &&
              |r.value.values| == Min(|v.values|, |other.vector.values|))
    ensures other.VectorOperand? ==> (r.Some? &&
              forall i :: 0 <= i < |r.value.values| ==> (i < |v.values| && i < |other.vector.values| &&
                r.value.values[i] == Box(ops, f(v.values[0], other.vector.values[0]), f(v.values[i], other.vector.values[i]))))
    ensures other.EntryOperand? && other.e.Val? ==> r.Some? && |r.value.values| == |v.values|
    ensures other.EntryOperand? && other.e.Val? ==> (r.Some? &&
              forall i :: 0 <= i < |r.value.values| ==> (i < |v.values| &&
                r.value.values[i] == Box(ops, f(v.values[0], other.e), f(v.values[i], other.e))))
  {
    match other
    case VectorOperand(w) => Some(NewVector(ops, Zip(f, v.values, w.values)).value)
    case EntryOperand(e) =>
      if e.Val? then Some(NewVector(ops, Each(x => f(x, e), v.values)).value) else None
    case MatrixOperand(_) => None
  }

  /** `-v`: every entry negated. */
  function VectorNeg<V>(ops: Ops<V>, v: Vector<V>): (r: Vector<V>)
    requires IsVector(v)
    ensures IsVector(r) && |r.values| == |v.values|
    ensures forall i :: 0 <= i < |v.values| ==> r.values[i] == Box(ops, ops.neg(v.values[0]), ops.neg(v.values[i]))
  {
    NewVector(ops, Each(ops.neg, v.values)).value
  }

  /** `-other` for each kind of operand; a plain number is negated as a
      number. */
  function Negate<V>(ops: Ops<V>, other: Operand<V>): (r: Operand<V>)
    requires other.MatrixOperand? ==> IsMatrix(other.rows)
    requires other.VectorOperand? ==> IsVector(other.vector)
    ensures r.MatrixOperand? <==> other.MatrixOperand?
    ensures r.VectorOperand? <==> other.VectorOperand?
    ensures r.MatrixOperand? ==> IsMatrix(r.rows) && Dims(r.rows) == Dims(other.rows)
    ensures r.VectorOperand? ==> IsVector(r.vector) && |r.vector.values| == |other.vector.values|
    ensures other.EntryOperand? && other.e.Num? ==> r == EntryOperand(Num(-other.e.x))
    ensures other.EntryOperand? && other.e.Val? ==> r == EntryOperand(ops.neg(other.e))
  {
    match other
    case MatrixOperand(m) => MatrixOperand(Negated(ops, m))
    case VectorOperand(w) => VectorOperand(VectorNeg(ops, w))
    case EntryOperand(e) => if e.Num? then EntryOperand(Num(-e.x)) else EntryOperand(ops.neg(e))
  }

  /** `v - other` is `v + (-other)`: a Vector is subtracted entry by entry,
      a `Value` from every entry; a number, negated, is still not a
      `Value`, so the result is None. */
  function VectorSub<V>(ops: Ops<V>, v: Vector<V>, other: Operand<V>): (r: Option<Vector<V>>)
    requires IsVector(v)
    requires other.MatrixOperand? ==> IsMatrix(other.rows)
    requires other.VectorOperand? ==> IsVector(other.vector)
    ensures other.VectorOperand? ==> r.Some? && |r.value.values| == Min(|v.values|, |other.vector.values|)
    ensures other.VectorOperand? ==> (r.Some? &&
              forall i :: 0 <= i < |r.value.values| ==> (i < |v.values| && i < |other.vector.values| &&
                r.value.values[i] == Box(ops, ops.add(v.values[0], VectorNeg(ops, other.vector).values[0]),
                                         ops.add(v.values[i], Box(ops, ops.neg(other.vector.values[0]), ops.neg(other.vector.values[i]))))))
    ensures other.EntryOperand? && other.e.Num? ==> r.None?
    ensures other.MatrixOperand? ==> r.None?
  {
    VectorCombine(ops, ops.add, v, Negate(ops, other))
  }

  /** `v / other` is `v * other ** -1`. A Vector has no `**`, so a Vector
      operand raises TypeError; a number 0 raises ZeroDivisionError; any
      other number gives a number and so None; a `Value` is inverted and
      multiplied into every entry. */
  function VectorTrueDiv<V>(ops: Ops<V>, v: Vector<V>, other: Operand<V>): (r: Result<Option<Vector<V>>>)
    requires IsVector(v) && (other.MatrixOperand? ==> IsMatrix(other.rows))
    ensures r.Err? <==> other.VectorOperand? || other == EntryOperand(Num(0.0))
    ensures other.VectorOperand? ==> r == Err(TypeError)
    ensures other == EntryOperand(Num(0.0)) ==> r == Err(ZeroDivisionError)
    ensures r.Ok? && r.value.Some? <==> other.EntryOperand? && other.e.Val? && ops.pow(other.e, -1.0).Val?
    ensures r.Ok? && r.value.Some? ==> |r.value.value.values| == |v.values|
    ensures r.Ok? && r.value.Some? ==> forall i :: 0 <= i < |v.values| ==>
              r.value.value.values[i] == Box(ops, ops.mul(v.values[0], ops.pow(other.e, -1.0)), ops.mul(v.values[i], ops.pow(other.e, -1.0)))
  {
    match other
    case VectorOperand(_) => Err(TypeError)
    case MatrixOperand(m) => Ok(VectorCombine(ops, ops.mul, v, MatrixOperand(Inverted(ops, m))))
    case EntryOperand(e) =>
      if e.Num? then
        if e.x == 0.0 then Err(ZeroDivisionError) else Ok(None)
      else Ok(VectorCombine(ops, ops.mul, v, EntryOperand(ops.pow(e, -1.0))))
  }

  /** Python's `sum` accumulates: one more entry is one more `+` on the
      right. This is what `col_sum`'s loop relies on. */
  lemma SumOfAppend<V>(ops: Ops<V>, xs: seq<Entry<V>>, x: Entry<V>)
    ensures SumOf(ops, xs + [x]) == ops.add(SumOf(ops, xs), x)
    ensures SumOf(ops, [x]) == ops.add(Num(0.0), x)
  {
    assert (xs + [x])[..|xs|] == xs;
    assert [x][..0] == [];
  }

  /** `v.mean()`: the sum divided by `dim()`, the number of entries. */
  function Mean<V>(ops: Ops<V>, v: Vector<V>): (r: Entry<V>)
    requires IsVector(v)
  {
    ops.div(SumOf(ops, v.values), Num(|v.values| as real))
  }

  /** `v.var()`: the squared deviations from the mean, summed and divided
      by the number of entries. */
  function Var<V>(ops: Ops<V>, v: Vector<V>): (r: Entry<V>)
    requires IsVector(v)
  {
    ops.div(SumOf(ops, Squares(ops, v)), Num(|v.values| as real))
  }

  /** `[(v - mean)**2 for v in values]`. */
  function Squares<V>(ops: Ops<V>, v: Vector<V>): (r: seq<Entry<V>>)
    requires IsVector(v)
    ensures |r| == |v.values|
    ensures forall i :: 0 <= i < |r| ==> r[i] == ops.pow(ops.sub(v.values[i], Mean(ops, v)), 2.0)
  {
    var mean := Mean(ops, v);
    Each(x => ops.pow(ops.sub(x, mean), 2.0), v.values)
  }

  /** `v.std()`: the variance to the power one half. */
  function Std<V>(ops: Ops<V>, v: Vector<V>): (r: Entry<V>)
    requires IsVector(v)
  {
    ops.pow(Var(ops, v), 1.0 / 2.0)
  }

  /** `v.dotprod(w)`: the sum of the entries of `v * w`, which `zip` cuts to
      the shorter length. */
  function DotProd<V>(ops: Ops<V>, v: Vector<V>, w: Vector<V>): (r: Entry<V>)
    requires IsVector(v) && IsVector(w)
  {
    var product := VectorCombine(ops, ops.mul, v, VectorOperand(w));
    SumOf(ops, product.value.values)
  }

  // ---------------------------------------------------------------------------
  // Entries read as numbers
  // ---------------------------------------------------------------------------

  /** The number an entry stands for: a plain number itself, a `Value` its
      `data`. */
  function DataOf<V>(data: V -> real, e: Entry<V>): real
  {
    if e.Num? then e.x else data(e.v)
  }

  /** The entries' operations do on `data` what the real operations do:
      the forward values a `Value` class computes. */
  ghost predicate Exact<V(!new)>(ops: Ops<V>, data: V -> real)
  {
    (forall e :: data(ops.make(e)) == DataOf(data, e)) &&
    (forall a, b :: DataOf(data, ops.add(a, b)) == DataOf(data, a) + DataOf(data, b)) &&
    (forall a, b :: DataOf(data, ops.sub(a, b)) == DataOf(data, a) - DataOf(data, b)) &&
    (forall a, b :: DataOf(data, ops.mul(a, b)) == DataOf(data, a) * DataOf(data, b)) &&
    (forall a, b :: DataOf(data, b) != 0.0 ==> DataOf(data, ops.div(a, b)) == DataOf(data, a) / DataOf(data, b)) &&
    (forall a :: DataOf(data, ops.neg(a)) == -DataOf(data, a)) &&
    (forall a :: DataOf(data, ops.pow(a, 2.0)) == DataOf(data, a) * DataOf(data, a))
  }

  /** The numbers a list of entries stands for. */
  function Datas<V>(data: V -> real, xs: seq<Entry<V>>): (r: seq<real>)
    ensures |r| == |xs| && forall i :: 0 <= i < |xs| ==> r[i] == DataOf(data, xs[i])
  {
    seq(|xs|, i requires 0 <= i < |xs| => DataOf(data, xs[i]))
  }

  /** Wrapping an entry in `Value(...)` keeps the number it stands for. */
  lemma BoxExact<V(!new)>(ops: Ops<V>, data: V -> real, first: Entry<V>, x: Entry<V>)
    requires Exact(ops, data)
    ensures DataOf(data, Box(ops, first, x)) == DataOf(data, x)
  {
  }

  /** Python's `sum` of entries stands for the sum of their numbers. */
  lemma {:induction false} SumOfExact<V(!new)>(ops: Ops<V>, data: V -> real, xs: seq<Entry<V>>)
    requires Exact(ops, data)
    ensures DataOf(data, SumOf(ops, xs)) == Sum(Datas(data, xs))
  {
    if xs != [] {
      var n := |xs|;
      SumOfExact(ops, data, xs[..n - 1]);
      assert Datas(data, xs)[..n - 1] == Datas(data, xs[..n - 1]);
    }
  }

  /** `v.mean()` stands for the arithmetic mean of the entries' numbers. */
  lemma MeanExact<V(!new)>(ops: Ops<V>, data: V -> real, v: Vector<V>)
    requires Exact(ops, data) && IsVector(v)
    ensures DataOf(data, Mean(ops, v)) == LinearAlgebra.MeanOf(Datas(data, v.values))
  {
    SumOfExact(ops, data, v.values);
  }

  /** `v.var()` stands for the population variance of the entries' numbers. */
  lemma VarExact<V(!new)>(ops: Ops<V>, data: V -> real, v: Vector<V>)
    requires Exact(ops, data) && IsVector(v)
    ensures DataOf(data, Var(ops, v)) == LinearAlgebra.VarianceOf(Datas(data, v.values))
  {
    SquaresExact(ops, data, v);
    SumOfExact(ops, data, Squares(ops, v));
  }

  /** The squared deviations `var()` sums stand for the squared deviations
      of the entries' numbers from their mean. */
  lemma SquaresExact<V(!new)>(ops: Ops<V>, data: V -> real, v: Vector<V>)
    requires Exact(ops, data) && IsVector(v)
    ensures Datas(data, Squares(ops, v)) ==
            LinearAlgebra.SquaredDeviations(Datas(data, v.values), LinearAlgebra.MeanOf(Datas(data, v.values)))
  {
    var xs := Datas(data, v.values);
    var m := LinearAlgebra.MeanOf(xs);
    MeanExact(ops, data, v);
    var squares := Squares(ops, v);
    forall i | 0 <= i < |squares|
      ensures Datas(data, squares)[i] == LinearAlgebra.SquaredDeviations(xs, m)[i]
    {
      SquaredDeviationExact(ops, data, v.values[i], Mean(ops, v), xs[i], m);
    }
  }

  /** `(a - b) ** 2` stands for the squared difference of the two numbers. */
  lemma SquaredDeviationExact<V(!new)>(ops: Ops<V>, data: V -> real, a: Entry<V>, b: Entry<V>, x: real, m: real)
    requires Exact(ops, data) && DataOf(data, a) == x && DataOf(data, b) == m
    ensures DataOf(data, ops.pow(ops.sub(a, b), 2.0)) == Times(x - m, x - m)
  {
  }

  /** `v.std()` stands for the root of the variance, for whatever `root`
      the entries' `** 0.5` computes. */
  lemma StdExact<V(!new)>(ops: Ops<V>, data: V -> real, root: real -> real, v: Vector<V>)
    requires Exact(ops, data) && IsVector(v)
    requires forall a :: DataOf(data, ops.pow(a, 0.5)) == root(DataOf(data, a))
    ensures DataOf(data, Std(ops, v)) == root(LinearAlgebra.VarianceOf(Datas(data, v.values)))
  {
    VarExact(ops, data, v);
  }

  /** `v.dotprod(w)` stands for the sum of the products of the two lists of
      numbers, over the shorter length. */
  lemma DotProdExact<V(!new)>(ops: Ops<V>, data: V -> real, v: Vector<V>, w: Vector<V>)
    requires Exact(ops, data) && IsVector(v) && IsVector(w)
    ensures DataOf(data, DotProd(ops, v, w)) ==
            Sum(LinearAlgebra.Products(Datas(data, v.values), Datas(data, w.values)))
  {
    var product := VectorCombine(ops, ops.mul, v, VectorOperand(w)).value.values;
    var expected := LinearAlgebra.Products(Datas(data, v.values), Datas(data, w.values));
    forall i | 0 <= i < |product|
      ensures Datas(data, product)[i] == expected[i]
    {
      BoxExact(ops, data, ops.mul(v.values[0], w.values[0]), ops.mul(v.values[i], w.values[i]));
    }
    assert Datas(data, product) == expected;
    SumOfExact(ops, data, product);
  }

  // ---------------------------------------------------------------------------
  // Matrix
  // ---------------------------------------------------------------------------

  type Rows<V> = seq<seq<Entry<V>>>

  /** Every `Matrix` the constructor lets through has a row, and its first
      row an entry. */
  predicate IsMatrix<V>(m: Rows<V>)
  {
    |m| > 0 && |m[0]| > 0
  }

  /** `dims()`: the number of rows and the length of the first. */
  function Dims<V>(m: Rows<V>): (nat, nat)
    requires IsMatrix(m)
  {
    (|m|, |m[0]|)
  }

  /** `Matrix(values)`: `values[0][0]` decides. A `Value` there keeps the
      rows as they are; anything else has every entry of every row made a
      `Value`. No rows, or an empty first row, raises IndexError. */
  function NewMatrix<V>(ops: Ops<V>, rows: Rows<V>): (r: Result<Rows<V>>)
    ensures r.Ok? <==> IsMatrix(rows)
    ensures r.Err? ==> r.error == IndexError
    ensures r.Ok? ==> IsMatrix(r.value) && r.value[0][0].Val?
    ensures r.Ok? ==> |r.value| == |rows| && forall i :: 0 <= i < |rows| ==> |r.value[i]| == |rows[i]|
    ensures r.Ok? ==> forall i, j :: 0 <= i < |r.value| && 0 <= j < |r.value[i]| ==>
              i < |rows| && j < |rows[i]| && r.value[i][j] == Box(ops, rows[0][0], rows[i][j])
  {
    if |rows| == 0 || |rows[0]| == 0 then Err(IndexError)
    else if rows[0][0].Val? then Ok(rows)
    else Ok(seq(|rows|, i requires 0 <= i < |rows| => Each(x => Val(ops.make(x)), rows[i])))
  }

  /** Building a `Matrix` from a `Matrix`'s rows keeps them: the first entry
      is a `Value`, so nothing is wrapped twice. */
  lemma NewMatrixStable<V>(ops: Ops<V>, rows: Rows<V>)
    requires IsMatrix(rows)
    ensures NewMatrix(ops, NewMatrix(ops, rows).value) == NewMatrix(ops, rows)
  {
  }

  /** `Matrix([[f(v) for v in row] for row in values])`, the shape of
      `-m`, `m ** p`, `exp` and `ln`. */
  function MatrixMap<V>(ops: Ops<V>, f: Entry<V> -> Entry<V>, m: Rows<V>): (r: Rows<V>)
    requires IsMatrix(m)
    ensures IsMatrix(r) && |r| == |m| && forall i :: 0 <= i < |m| ==> |r[i]| == |m[i]|
    ensures forall i, j :: 0 <= i < |r| && 0 <= j < |r[i]| ==>
              i < |m| && j < |m[i]| && r[i][j] == Box(ops, f(m[0][0]), f(m[i][j]))
  {
    NewMatrix(ops, seq(|m|, i requires 0 <= i < |m| => Each(f, m[i]))).value
  }

  /** `m + other` (and `other + m`, which is the same for the operands
      modelled): a Matrix pairs rows, and entries within them, with `zip`;
      a Vector is paired with every row; a `Value` is added to every entry;
      a number is made one `Value` first and then added. */
  function MatrixAdd<V>(ops: Ops<V>, m: Rows<V>, other: Operand<V>): (r: Rows<V>)
    requires IsMatrix(m)
    requires other.MatrixOperand? ==> IsMatrix(other.rows)
    requires other.VectorOperand? ==> IsVector(other.vector)
    ensures IsMatrix(r)
    ensures other.MatrixOperand? ==> |r| == Min(|m|, |other.rows|)
    ensures other.MatrixOperand? ==> forall i :: 0 <= i < |r| ==> |r[i]| == Min(|m[i]|, |other.rows[i]|)
    ensures other.MatrixOperand? ==> forall i, j :: 0 <= i < |r| && 0 <= j < |r[i]| ==>
              i < |m| && i < |other.rows| && j < |m[i]| && j < |other.rows[i]| &&
              r[i][j] == Box(ops, ops.add(m[0][0], other.rows[0][0]), ops.add(m[i][j], other.rows[i][j]))
    ensures other.VectorOperand? ==> |r| == |m|
    ensures other.VectorOperand? ==> forall i :: 0 <= i < |r| ==> |r[i]| == Min(|m[i]|, |other.vector.values|)
    ensures other.VectorOperand? ==> forall i, j :: 0 <= i < |r| && 0 <= j < |r[i]| ==>
              i < |m| && j < |m[i]| && j < |other.vector.values| &&
              r[i][j] == Box(ops, ops.add(m[0][0], other.vector.values[0]), ops.add(m[i][j], other.vector.values[j]))
    ensures other.EntryOperand? ==> |r| == |m| && forall i :: 0 <= i < |r| ==> |r[i]| == |m[i]|
    ensures other.EntryOperand? ==> forall i, j :: 0 <= i < |r| && 0 <= j < |r[i]| ==>
              i < |m| && j < |m[i]| &&
              r[i][j] == Box(ops, ops.add(m[0][0], Promoted(ops, other.e)), ops.add(m[i][j], Promoted(ops, other.e)))
  {
    match other
    case MatrixOperand(o) =>
      NewMatrix(ops, seq(Min(|m|, |o|), i requires 0 <= i < Min(|m|, |o|) => Zip(ops.add, m[i], o[i]))).value
    case VectorOperand(v) =>
      NewMatrix(ops, seq(|m|, i requires 0 <= i < |m| => Zip(ops.add, m[i], v.values))).value
    case EntryOperand(e) =>
      var x := Promoted(ops, e);
      NewMatrix(ops, seq(|m|, i requires 0 <= i < |m| => Each(y => ops.add(y, x), m[i]))).value
  }

  /** The right operand `Matrix.__add__` adds to every entry: a `Value` as it
      is, a number as `Value(number)`. */
  function Promoted<V>(ops: Ops<V>, e: Entry<V>): (r: Entry<V>)
    ensures r.Val? && (e.Val? ==> r == e)
  {
    if e.Val? then e else Val(ops.make(e))
  }

  /** `m - other` is `m + (-other)`. */
  function MatrixSub<V>(ops: Ops<V>, m: Rows<V>, other: Operand<V>): (r: Rows<V>)
    requires IsMatrix(m)
    requires other.MatrixOperand? ==> IsMatrix(other.rows)
    requires other.VectorOperand? ==> IsVector(other.vector)
    ensures IsMatrix(r)
    ensures other.MatrixOperand? ==> |r| == Min(|m|, |other.rows|)
    ensures other.MatrixOperand? ==> forall i :: 0 <= i < |r| ==> |r[i]| == Min(|m[i]|, |other.rows[i]|)
    ensures other.MatrixOperand? ==> forall i, j :: 0 <= i < |r| && 0 <= j < |r[i]| ==>
              i < |m| && i < |other.rows| && j < |m[i]| && j < |other.rows[i]| &&
              r[i][j] == Box(ops, ops.add(m[0][0], Negated(ops, other.rows)[0][0]),
                             ops.add(m[i][j], Negated(ops, other.rows)[i][j]))
    ensures other.EntryOperand? && other.e.Num? ==> r == MatrixAdd(ops, m, EntryOperand(Num(-other.e.x)))
  {
    MatrixAdd(ops, m, Negate(ops, other))
  }

  /** `m - v` for a Vector `v`: `-v` is added to every row, entry `j` of
      `-v` going to column `j`. */
  lemma MatrixSubVector<V>(ops: Ops<V>, m: Rows<V>, w: Vector<V>)
    requires IsMatrix(m) && IsVector(w)
    ensures var r := MatrixSub(ops, m, VectorOperand(w));
            |r| == |m| && forall i :: 0 <= i < |r| ==> |r[i]| == Min(|m[i]|, |w.values|)
    ensures var r := MatrixSub(ops, m, VectorOperand(w));
            forall i, j :: 0 <= i < |r| && 0 <= j < |r[i]| ==>
              i < |m| && j < |m[i]| && j < |w.values| &&
              r[i][j] == Box(ops, ops.add(m[0][0], VectorNeg(ops, w).values[0]),
                             ops.add(m[i][j], VectorNeg(ops, w).values[j]))
  {
    assert Negate(ops, VectorOperand(w)) == VectorOperand(VectorNeg(ops, w));
  }

  /** `m - x` for a single entry `x`: `-x`, made a `Value` when it is a
      number, is added to every entry. */
  lemma MatrixSubEntry<V>(ops: Ops<V>, m: Rows<V>, x: Entry<V>)
    requires IsMatrix(m)
    ensures var r := MatrixSub(ops, m, EntryOperand(x));
            |r| == |m| && forall i :: 0 <= i < |r| ==> |r[i]| == |m[i]|
    ensures var r := MatrixSub(ops, m, EntryOperand(x));
            var minus := Promoted(ops, if x.Num? then Num(-x.x) else ops.neg(x));
            forall i, j :: 0 <= i < |r| && 0 <= j < |r[i]| ==>
              i < |m| && j < |m[i]| &&
              r[i][j] == Box(ops, ops.add(m[0][0], minus), ops.add(m[i][j], minus))
  {
    assert Negate(ops, EntryOperand(x)) == EntryOperand(if x.Num? then Num(-x.x) else ops.neg(x));
  }

  /** Read as numbers, `m - other` is the difference entry by entry: with
      the paired entry of a Matrix, with entry `j` of a Vector in column
      `j`, and with a single entry everywhere. */
  lemma MatrixSubExact<V(!new)>(ops: Ops<V>, data: V -> real, m: Rows<V>, other: Operand<V>)
    requires Exact(ops, data) && IsMatrix(m)
    requires other.MatrixOperand? ==> IsMatrix(other.rows)
    requires other.VectorOperand? ==> IsVector(other.vector)
    ensures other.MatrixOperand? ==> forall i, j :: 0 <= i < |MatrixSub(ops, m, other)| && 0 <= j < |MatrixSub(ops, m, other)[i]| ==>
              i < |other.rows| && j < |other.rows[i]| &&
              DataOf(data, MatrixSub(ops, m, other)[i][j]) == DataOf(data, m[i][j]) - DataOf(data, other.rows[i][j])
    ensures other.VectorOperand? ==> forall i, j :: 0 <= i < |MatrixSub(ops, m, other)| && 0 <= j < |MatrixSub(ops, m, other)[i]| ==>
              j < |other.vector.values| &&
              DataOf(data, MatrixSub(ops, m, other)[i][j]) == DataOf(data, m[i][j]) - DataOf(data, other.vector.values[j])
    ensures other.EntryOperand? ==> forall i, j :: 0 <= i < |MatrixSub(ops, m, other)| && 0 <= j < |MatrixSub(ops, m, other)[i]| ==>
              DataOf(data, MatrixSub(ops, m, other)[i][j]) == DataOf(data, m[i][j]) - DataOf(data, other.e)
  {
    match other
    case MatrixOperand(o) => MatrixSubMatrixExact(ops, data, m, o);
    case VectorOperand(w) => MatrixSubVectorExact(ops, data, m, w);
    case EntryOperand(e) => MatrixSubEntryExact(ops, data, m, e);
  }

  lemma MatrixSubMatrixExact<V(!new)>(ops: Ops<V>, data: V -> real, m: Rows<V>, o: Rows<V>)
    requires Exact(ops, data) && IsMatrix(m) && IsMatrix(o)
    ensures var r := MatrixSub(ops, m, MatrixOperand(o));
            forall i, j :: 0 <= i < |r| && 0 <= j < |r[i]| ==>
              i < |o| && j < |o[i]| && DataOf(data, r[i][j]) == DataOf(data, m[i][j]) - DataOf(data, o[i][j])
  {
    var r := MatrixSub(ops, m, MatrixOperand(o));
    var n := Negated(ops, o);
    forall i, j | 0 <= i < |r| && 0 <= j < |r[i]|
      ensures i < |o| && j < |o[i]| && DataOf(data, r[i][j]) == DataOf(data, m[i][j]) - DataOf(data, o[i][j])
    {
      assert r[i][j] == Box(ops, ops.add(m[0][0], n[0][0]), ops.add(m[i][j], n[i][j]));
      assert n[i][j] == Box(ops, ops.neg(o[0][0]), ops.neg(o[i][j]));
    }
  }

  lemma MatrixSubVectorExact<V(!new)>(ops: Ops<V>, data: V -> real, m: Rows<V>, w: Vector<V>)
    requires Exact(ops, data) && IsMatrix(m) && IsVector(w)
    ensures var r := MatrixSub(ops, m, VectorOperand(w));
            forall i, j :: 0 <= i < |r| && 0 <= j < |r[i]| ==>
              j < |w.values| && DataOf(data, r[i][j]) == DataOf(data, m[i][j]) - DataOf(data, w.values[j])
  {
    var r := MatrixSub(ops, m, VectorOperand(w));
    var n := VectorNeg(ops, w);
    MatrixSubVector(ops, m, w);
    forall i, j | 0 <= i < |r| && 0 <= j < |r[i]|
      ensures j < |w.values| && DataOf(data, r[i][j]) == DataOf(data, m[i][j]) - DataOf(data, w.values[j])
    {
      assert r[i][j] == Box(ops, ops.add(m[0][0], n.values[0]), ops.add(m[i][j], n.values[j]));
      assert n.values[j] == Box(ops, ops.neg(w.values[0]), ops.neg(w.values[j]));
    }
  }

  lemma MatrixSubEntryExact<V(!new)>(ops: Ops<V>, data: V -> real, m: Rows<V>, x: Entry<V>)
    requires Exact(ops, data) && IsMatrix(m)
    ensures var r := MatrixSub(ops, m, EntryOperand(x));
            forall i, j :: 0 <= i < |r| && 0 <= j < |r[i]| ==>
              DataOf(data, r[i][j]) == DataOf(data, m[i][j]) - DataOf(data, x)
  {
    var r := MatrixSub(ops, m, EntryOperand(x));
    var minus := Promoted(ops, if x.Num? then Num(-x.x) else ops.neg(x));
    MatrixSubEntry(ops, m, x);
    assert DataOf(data, minus) == -DataOf(data, x);
    forall i, j | 0 <= i < |r| && 0 <= j < |r[i]|
      ensures DataOf(data, r[i][j]) == DataOf(data, m[i][j]) - DataOf(data, x)
    {
      assert r[i][j] == Box(ops, ops.add(m[0][0], minus), ops.add(m[i][j], minus));
    }
  }

  /** `-m`: every entry negated. */
  function Negated<V>(ops: Ops<V>, m: Rows<V>): (r: Rows<V>)
    requires IsMatrix(m)
    ensures IsMatrix(r) && |r| == |m| && forall i :: 0 <= i < |m| ==> |r[i]| == |m[i]|
    ensures forall i, j :: 0 <= i < |r| && 0 <= j < |r[i]| ==>
              i < |m| && j < |m[i]| && r[i][j] == Box(ops, ops.neg(m[0][0]), ops.neg(m[i][j]))
  {
    MatrixMap(ops, ops.neg, m)
  }

  /** `m ** -1`: every entry inverted. */
  function Inverted<V>(ops: Ops<V>, m: Rows<V>): (r: Rows<V>)
    requires IsMatrix(m)
    ensures IsMatrix(r) && |r| == |m| && forall i :: 0 <= i < |m| ==> |r[i]| == |m[i]|
    ensures forall i, j :: 0 <= i < |r| && 0 <= j < |r[i]| ==>
              i < |m| && j < |m[i]| && r[i][j] == Box(ops, ops.pow(m[0][0], -1.0), ops.pow(m[i][j], -1.0))
  {
    MatrixMap(ops, e => ops.pow(e, -1.0), m)
  }

  /** `[[x] * d2] * d1` as a Matrix: every entry `Value(x)`. */
  function Filled<V>(ops: Ops<V>, x: real, d1: nat, d2: nat): (r: Rows<V>)
    requires d1 > 0 && d2 > 0
    ensures IsMatrix(r) && |r| == d1 && forall i :: 0 <= i < d1 ==> |r[i]| == d2
    ensures forall i, j :: 0 <= i < |r| && 0 <= j < |r[i]| ==> r[i][j] == Val(ops.make(Num(x)))
  {
    NewMatrix(ops, Repeat(Repeat(Num(x), d2), d1)).value
  }

  /** `x - m` for a number `x`: a matrix of `dims()` filled with `x`, plus
      `-m`. Row `i` is as long as the shorter of the first row and row `i`. */
  function MatrixRSub<V>(ops: Ops<V>, m: Rows<V>, x: real): (r: Rows<V>)
    requires IsMatrix(m)
    ensures IsMatrix(r) && |r| == |m|
    ensures forall i :: 0 <= i < |r| ==> |r[i]| == Min(|m[0]|, |m[i]|)
    ensures forall i, j :: 0 <= i < |r| && 0 <= j < |r[i]| ==>
              i < |m| && j < |m[i]| &&
              r[i][j] == Box(ops, ops.add(Val(ops.make(Num(x))), Negated(ops, m)[0][0]),
                             ops.add(Val(ops.make(Num(x))), Negated(ops, m)[i][j]))
  {
    var filled := Filled(ops, x, |m|, |m[0]|);
    var negated := Negated(ops, m);
    MatrixAdd(ops, filled, MatrixOperand(negated))
  }

  /** `m * other` for a Matrix `other`: rows and entries paired by `zip`. */
  function MatrixMul<V>(ops: Ops<V>, m: Rows<V>, o: Rows<V>): (r: Rows<V>)
    requires IsMatrix(m) && IsMatrix(o)
    ensures IsMatrix(r) && |r| == Min(|m|, |o|)
    ensures forall i :: 0 <= i < |r| ==> |r[i]| == Min(|m[i]|, |o[i]|)
    ensures forall i, j :: 0 <= i < |r| && 0 <= j < |r[i]| ==>
              i < |m| && i < |o| && j < |m[i]| && j < |o[i]| &&
              r[i][j] == Box(ops, ops.mul(m[0][0], o[0][0]), ops.mul(m[i][j], o[i][j]))
  {
    NewMatrix(ops, seq(Min(|m|, |o|), i requires 0 <= i < Min(|m|, |o|) => Zip(ops.mul, m[i], o[i]))).value
  }

  /** `m / other` for a Matrix `other`: `m * other ** -1`. */
  function MatrixTrueDiv<V>(ops: Ops<V>, m: Rows<V>, o: Rows<V>): (r: Rows<V>)
    requires IsMatrix(m) && IsMatrix(o)
    ensures IsMatrix(r) && |r| == Min(|m|, |o|)
    ensures forall i :: 0 <= i < |r| ==> |r[i]| == Min(|m[i]|, |o[i]|)
    ensures forall i, j :: 0 <= i < |r| && 0 <= j < |r[i]| ==>
              i < |m| && i < |o| && j < |m[i]| && j < |o[i]| &&
              r[i][j] == Box(ops, ops.mul(m[0][0], Inverted(ops, o)[0][0]), ops.mul(m[i][j], Inverted(ops, o)[i][j]))
  {
    MatrixMul(ops, m, Inverted(ops, o))
  }

  /** `x / m` for a number `x`: a matrix of `dims()` filled with `x`,
      divided by `m`. */
  function MatrixRTrueDiv<V>(ops: Ops<V>, m: Rows<V>, x: real): (r: Rows<V>)
    requires IsMatrix(m)
    ensures IsMatrix(r) && |r| == |m|
    ensures forall i :: 0 <= i < |r| ==> |r[i]| == Min(|m[0]|, |m[i]|)
    ensures forall i, j :: 0 <= i < |r| && 0 <= j < |r[i]| ==>
              i < |m| && j < |m[i]| &&
              r[i][j] == Box(ops, ops.mul(Val(ops.make(Num(x))), Inverted(ops, m)[0][0]),
                             ops.mul(Val(ops.make(Num(x))), Inverted(ops, m)[i][j]))
  {
    var filled := Filled(ops, x, |m|, |m[0]|);
    MatrixTrueDiv(ops, filled, m)
  }

  /** A row key: an `int`, or a `Value` whose `data` is turned into one. */
  datatype Key<V> = IntKey(i: int) | ValueKey(k: V)

  function KeyIndex<V>(ops: Ops<V>, key: Key<V>): int
  {
    match key
    case IntKey(i) => i
    case ValueKey(k) => ops.toInt(k)
  }

  /** `row(key)`: the row at a Python index, as a Vector. IndexError when
      the key is outside the rows, and when that row is empty. */
  function MatrixRow<V>(ops: Ops<V>, m: Rows<V>, key: Key<V>): (r: Result<Vector<V>>)
    ensures r.Err? ==> r.error == IndexError
    ensures r.Ok? <==> PyIndex(|m|, KeyIndex(ops, key)).Some? && m[PyIndex(|m|, KeyIndex(ops, key)).value] != []
    ensures r.Ok? ==> r == NewVector(ops, m[PyIndex(|m|, KeyIndex(ops, key)).value])
  {
    match PyIndex(|m|, KeyIndex(ops, key))
    case None => Err(IndexError)
    case Some(k) => NewVector(ops, m[k])
  }

  /** The rows at `keys`, in key order; the first key outside the rows
      raises IndexError. */
  function Select<V>(ops: Ops<V>, m: Rows<V>, keys: seq<Key<V>>): (r: Result<Rows<V>>)
    ensures r.Ok? <==> forall t :: 0 <= t < |keys| ==> PyIndex(|m|, KeyIndex(ops, keys[t])).Some?
    ensures r.Err? ==> r.error == IndexError
    ensures r.Ok? ==> |r.value| == |keys|
    ensures r.Ok? ==> forall t :: 0 <= t < |keys| ==> r.value[t] == m[PyIndex(|m|, KeyIndex(ops, keys[t])).value]
  {
    if keys == [] then Ok([])
    else
      match PyIndex(|m|, KeyIndex(ops, keys[0]))
      case None => Err(IndexError)
      case Some(k) =>
        var rest := Select(ops, m, keys[1..]);
        if rest.Err? then rest
        else
          assert forall t :: 1 <= t < |keys| ==> keys[t] == keys[1..][t - 1];
          Ok([m[k]] + rest.value)
  }

  /** `rows(keys)`: a Matrix of the rows at `keys`, in key order. No keys,
      a key outside the rows or an empty first selected row raise
      IndexError. */
  function MatrixRows<V>(ops: Ops<V>, m: Rows<V>, keys: seq<Key<V>>): (r: Result<Rows<V>>)
    ensures r.Err? ==> r.error == IndexError
    ensures r.Ok? <==> Select(ops, m, keys).Ok? && IsMatrix(Select(ops, m, keys).value)
    ensures r.Ok? ==> |r.value| == |keys|
    ensures r.Ok? ==> forall t :: 0 <= t < |keys| ==>
              |r.value[t]| == |m[PyIndex(|m|, KeyIndex(ops, keys[t])).value]|
  {
    var selected :- Select(ops, m, keys);
    NewMatrix(ops, selected)
  }

  /** On a matrix of `Value`s, row `t` of `rows(keys)` holds the entries of
      `row(keys[t])`, which raises exactly when that row is empty. */
  lemma RowsAgreeWithRow<V>(ops: Ops<V>, m: Rows<V>, keys: seq<Key<V>>, t: nat)
    requires forall i, j :: 0 <= i < |m| && 0 <= j < |m[i]| ==> m[i][j].Val?
    requires MatrixRows(ops, m, keys).Ok? && t < |keys|
    ensures MatrixRow(ops, m, keys[t]).Ok? <==> MatrixRows(ops, m, keys).value[t] != []
    ensures MatrixRow(ops, m, keys[t]).Ok? ==>
              MatrixRows(ops, m, keys).value[t] == MatrixRow(ops, m, keys[t]).value.values
  {
    var selected := Select(ops, m, keys).value;
    var k := PyIndex(|m|, KeyIndex(ops, keys[t])).value;
    var row := MatrixRows(ops, m, keys).value[t];
    assert selected[t] == m[k] && |row| == |m[k]|;
    if m[k] != [] {
      var vec := MatrixRow(ops, m, keys[t]).value.values;
      assert |row| == |vec|;
      forall j | 0 <= j < |row|
        ensures row[j] == vec[j]
      {
        assert row[j] == Box(ops, selected[0][0], m[k][j]);
      }
    }
  }

  /** `col(key)`: entry `key` (a Python index) of every row, as a Vector;
      a row too short for it raises IndexError. */
  function MatrixCol<V>(ops: Ops<V>, m: Rows<V>, key: int): (r: Result<Vector<V>>)
    requires IsMatrix(m)
    ensures r.Ok? <==> forall i :: 0 <= i < |m| ==> PyIndex(|m[i]|, key).Some?
    ensures r.Err? ==> r.error == IndexError
    ensures r.Ok? ==> |r.value.values| == |m|
    ensures r.Ok? ==> forall i :: 0 <= i < |m| ==>
              r.value.values[i] == Box(ops, m[0][PyIndex(|m[0]|, key).value], m[i][PyIndex(|m[i]|, key).value])
  {
    if forall i :: 0 <= i < |m| ==> PyIndex(|m[i]|, key).Some? then
      NewVector(ops, seq(|m|, i requires 0 <= i < |m| => m[i][PyIndex(|m[i]|, key).value]))
    else Err(IndexError)
  }

  /** `row_sum()`: a Vector with one entry per row, that row's `sum`. */
  function MatrixRowSum<V>(ops: Ops<V>, m: Rows<V>): (r: Vector<V>)
    requires IsMatrix(m)
    ensures IsVector(r) && |r.values| == |m|
    ensures forall i :: 0 <= i < |m| ==> r.values[i] == Box(ops, SumOf(ops, m[0]), SumOf(ops, m[i]))
  {
    NewVector(ops, seq(|m|, i requires 0 <= i < |m| => SumOf(ops, m[i]))).value
  }

  /** Entry `k` of every row, when every row has one. */
  function Column<V>(m: Rows<V>, k: nat): (r: seq<Entry<V>>)
    requires forall i :: 0 <= i < |m| ==> k < |m[i]|
    ensures |r| == |m| && forall i :: 0 <= i < |m| ==> r[i] == m[i][k]
  {
    seq(|m|, i requires 0 <= i < |m| => m[i][k])
  }

  /** Some row is shorter than the first. */
  predicate Ragged<V>(m: Rows<V>)
    requires |m| > 0
  {
    exists i :: 0 <= i < |m| && |m[i]| < |m[0]|
  }

  /** `col_sum()`: a Vector as long as the first row whose entry `k` is the
      `sum` of column `k`; a row shorter than the first raises IndexError. */
  function ColSums<V>(ops: Ops<V>, m: Rows<V>): (r: Result<Vector<V>>)
    requires IsMatrix(m)
    ensures r.Ok? <==> !Ragged(m)
    ensures r.Err? ==> r.error == IndexError
    ensures r.Ok? ==> |r.value.values| == |m[0]|
    ensures r.Ok? ==> forall k :: 0 <= k < |m[0]| ==>
              r.value.values[k] == Box(ops, SumOf(ops, Column(m, 0)), SumOf(ops, Column(m, k)))
  {
    if Ragged(m) then Err(IndexError)
    else NewVector(ops, seq(|m[0]|, k requires 0 <= k < |m[0]| => SumOf(ops, Column(m, k))))
  }

  /** The inner loop of `col_sum()` for column `k`: `col_sum[k] += row[k]`
      for every row, starting from the 0 that `col_sum[k]` holds; a row
      too short raises IndexError. */
  method ColumnTotal<V>(ops: Ops<V>, m: Rows<V>, k: nat) returns (r: Result<Entry<V>>)
    ensures r.Ok? <==> forall i :: 0 <= i < |m| ==> k < |m[i]|
    ensures r.Err? ==> r.error == IndexError
    ensures r.Ok? ==> r.value == SumOf(ops, Column(m, k))
  {
    var total := Num(0.0);
    var i := 0;
    while i < |m|
      invariant 0 <= i <= |m|
      invariant forall t :: 0 <= t < i ==> k < |m[t]|
      invariant total == SumOf(ops, Column(m[..i], k))
    {
      if |m[i]| <= k {
        return Err(IndexError);
      }
      assert Column(m[..i + 1], k) == Column(m[..i], k) + [m[i][k]];
      SumOfAppend(ops, Column(m[..i], k), m[i][k]);
      total := ops.add(total, m[i][k]);
      i := i + 1;
    }
    assert m[..i] == m;
    r := Ok(total);
  }

  /** On a matrix of `Value`s, entry `k` of `col_sum()` is the sum of
      `col(k)`, wrapped as the constructor wraps the first. */
  lemma ColSumIsSumOfCol<V>(ops: Ops<V>, m: Rows<V>, k: nat)
    requires IsMatrix(m) && !Ragged(m) && k < |m[0]|
    requires forall i, j :: 0 <= i < |m| && 0 <= j < |m[i]| ==> m[i][j].Val?
    ensures MatrixCol(ops, m, k).Ok?
    ensures ColSums(ops, m).value.values[k] ==
            Box(ops, SumOf(ops, Column(m, 0)), SumOf(ops, MatrixCol(ops, m, k).value.values))
  {
    assert forall i :: 0 <= i < |m| ==> k < |m[i]|;
    var col := MatrixCol(ops, m, k).value.values;
    assert col == Column(m, k);
  }

  /** `Matrix.broadcast(vector, n, axis)`: axis 0 repeats each entry `n`
      times along its own row, axis 1 repeats the whole vector as `n` rows;
      any other axis leaves no rows. No rows or empty rows (`n <= 0`)
      raise IndexError in the constructor. */
  function Broadcast<V>(ops: Ops<V>, v: Vector<V>, n: int, axis: int): (r: Result<Rows<V>>)
    requires IsVector(v)
    ensures r.Ok? <==> n > 0 && (axis == 0 || axis == 1)
    ensures r.Err? ==> r.error == IndexError
    ensures r.Ok? && axis == 0 ==> |r.value| == |v.values| && forall i :: 0 <= i < |r.value| ==> |r.value[i]| == n
    ensures r.Ok? && axis == 0 ==> forall i, j :: 0 <= i < |r.value| && 0 <= j < |r.value[i]| ==>
              r.value[i][j] == Box(ops, v.values[0], v.values[i])
    ensures r.Ok? && axis == 1 ==> |r.value| == n && forall i :: 0 <= i < |r.value| ==> |r.value[i]| == |v.values|
    ensures r.Ok? && axis == 1 ==> forall i, j :: 0 <= i < |r.value| && 0 <= j < |r.value[i]| ==>
              r.value[i][j] == Box(ops, v.values[0], v.values[j])
  {
    var times: nat := if n > 0 then n else 0;
    var rows :=
      if axis == 0 then seq(|v.values|, i requires 0 <= i < |v.values| => Repeat(v.values[i], times))
      else if axis == 1 then Repeat(v.values, times)
      else [];
    NewMatrix(ops, rows)
  }

  /** The two axes give each other's transpose. */
  lemma BroadcastAxesTranspose<V>(ops: Ops<V>, v: Vector<V>, n: int, i: nat, j: nat)
    requires IsVector(v) && n > 0 && i < |v.values| && j < n
    ensures Broadcast(ops, v, n, 0).Ok? && Broadcast(ops, v, n, 1).Ok?
    ensures Broadcast(ops, v, n, 0).value[i][j] == Broadcast(ops, v, n, 1).value[j][i]
  {
  }

  /** `sum(zip(xs, ys) products)`: one entry of a matrix product. */
  function Dot<V>(ops: Ops<V>, xs: seq<Entry<V>>, ys: seq<Entry<V>>): Entry<V>
  {
    SumOf(ops, Zip(ops.mul, xs, ys))
  }

  /** `matmul(other)`: the inner dimensions must agree (AssertionError);
      reading column `j` of `other` raises IndexError on a row of `other`
      shorter than its first. Entry `(i, j)` is the `sum` over `zip` of row
      `i` and column `j`. */
  function MatMul<V>(ops: Ops<V>, m: Rows<V>, o: Rows<V>): (r: Result<Rows<V>>)
    requires IsMatrix(m) && IsMatrix(o)
    ensures r.Err? <==> Dims(m).1 != Dims(o).0 || Ragged(o)
    ensures Dims(m).1 != Dims(o).0 ==> r == Err(AssertionError)
    ensures Dims(m).1 == Dims(o).0 && Ragged(o) ==> r == Err(IndexError)
    ensures r.Ok? ==> IsMatrix(r.value) && Dims(r.value) == (Dims(m).0, Dims(o).1)
    ensures r.Ok? ==> forall i :: 0 <= i < |r.value| ==> |r.value[i]| == |o[0]|
    ensures r.Ok? ==> forall i, j :: 0 <= i < |r.value| && 0 <= j < |r.value[i]| ==>
              i < |m| && j < |o[0]| &&
              r.value[i][j] == Box(ops, Dot(ops, m[0], Column(o, 0)), Dot(ops, m[i], Column(o, j)))
  {
    if |m[0]| != |o| then Err(AssertionError)
    else if Ragged(o) then Err(IndexError)
    else
      NewMatrix(ops, seq(|m|, i requires 0 <= i < |m| =>
                          seq(|o[0]|, j requires 0 <= j < |o[0]| => Dot(ops, m[i], Column(o, j)))))
  }

  /** A `Matrix` object: `max` and `min` replace its entries in place and
      return it, and `col_sum` is accumulated in a loop. */
  class Matrix<V> {
    var values: Rows<V>

    constructor Of(rows: Rows<V>)
      ensures values == rows
    {
      values := rows;
    }

    /** `max(num)`: every entry becomes `Value.max(entry, num)`, in place;
        the receiver is returned. */
    method Max(ops: Ops<V>, c: real) returns (r: Matrix<V>)
      modifies this
      ensures r == this
      ensures |values| == old(|values|) && forall i :: 0 <= i < |values| ==> |values[i]| == old(|values[i]|)
      ensures forall i, j :: 0 <= i < |values| && 0 <= j < |values[i]| ==> values[i][j] == ops.max(old(values[i][j]), c)
    {
      ReplaceEach(e => ops.max(e, c));
      r := this;
    }

    /** `min(num)`: every entry becomes `Value.min(entry, num)`, in place;
        the receiver is returned. */
    method Min(ops: Ops<V>, c: real) returns (r: Matrix<V>)
      modifies this
      ensures r == this
      ensures |values| == old(|values|) && forall i :: 0 <= i < |values| ==> |values[i]| == old(|values[i]|)
      ensures forall i, j :: 0 <= i < |values| && 0 <= j < |values[i]| ==> values[i][j] == ops.min(old(values[i][j]), c)
    {
      ReplaceEach(e => ops.min(e, c));
      r := this;
    }

    /** `row[i] = f(row[i])` for every row and index. */
    method ReplaceEach(f: Entry<V> -> Entry<V>)
      modifies this
      ensures |values| == old(|values|) && forall i :: 0 <= i < |values| ==> |values[i]| == old(|values[i]|)
      ensures forall i, j :: 0 <= i < |values| && 0 <= j < |values[i]| ==> values[i][j] == f(old(values[i][j]))
    {
      ghost var v0 := values;
      var i := 0;
      while i < |values|
        invariant 0 <= i <= |values| == |v0|
        invariant forall k :: 0 <= k < |v0| ==> |values[k]| == |v0[k]|
        invariant forall k :: i <= k < |v0| ==> values[k] == v0[k]
        invariant forall k, l :: 0 <= k < i && 0 <= l < |values[k]| ==> values[k][l] == f(v0[k][l])
      {
        var j := 0;
        while j < |values[i]|
          invariant |values| == |v0| && 0 <= j <= |values[i]| == |v0[i]|
          invariant forall k :: 0 <= k < |v0| ==> |values[k]| == |v0[k]|
          invariant forall k :: i < k < |v0| ==> values[k] == v0[k]
          invariant forall l :: j <= l < |v0[i]| ==> values[i][l] == v0[i][l]
          invariant forall l :: 0 <= l < j ==> values[i][l] == f(v0[i][l])
          invariant forall k, l :: 0 <= k < i && 0 <= l < |values[k]| ==> values[k][l] == f(v0[k][l])
        {
          values := values[i := values[i][j := f(values[i][j])]];
          j := j + 1;
        }
        i := i + 1;
      }
    }

    /** `col_sum()`: `col_sum[k] += row[k]` for every column `k` of the first
        row and every row, from a list of zeros. */
    method ColSum(ops: Ops<V>) returns (r: Result<Vector<V>>)
      requires IsMatrix(values)
      ensures r == ColSums(ops, values)
    {
      var m := values;
      var cols := |m[0]|;
      var sums := Repeat(Num(0.0), cols);
      var k := 0;
      while k < cols
        invariant 0 <= k <= cols && |sums| == cols
        invariant forall i :: 0 <= i < |m| ==> |m[i]| >= k
        invariant forall l :: 0 <= l < k ==> sums[l] == SumOf(ops, Column(m, l))
      {
        var total := ColumnTotal(ops, m, k);
        if total.Err? {
          assert Ragged(m);
          return Err(IndexError);
        }
        sums := sums[k := total.value];
        k := k + 1;
      }
      assert !Ragged(m);
      assert sums == seq(cols, l requires 0 <= l < cols => SumOf(ops, Column(m, l)));
      r := NewVector(ops, sums);
    }
  }
}
