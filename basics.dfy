/** The teaching containers of basics/linear_algebra.py over plain numbers:
    `Scalar`, `Vector`, `Matrix` (whose operations are nested loops that
    append to fresh lists) and `Tensor` (nested lists, whose operations
    recurse). The numbers are Python floats, modelled as reals; the
    `isinstance` assertions on the operand are met by the Dafny types. */
module Basics {
  import opened Common

  // ---------------------------------------------------------------------
  // Scalar and Vector
  // ---------------------------------------------------------------------

  datatype Scalar = Scalar(value: real)

  /** `Scalar.__add__`. */
  function ScalarAdd(a: Scalar, b: Scalar): (r: Scalar)
    ensures r.value == a.value + b.value
  {
    Scalar(a.value + b.value)
  }

  /** `Scalar.__mul__`. */
  function ScalarMul(a: Scalar, b: Scalar): (r: Scalar)
    ensures r.value == a.value * b.value
  {
    Scalar(Times(a.value, b.value))
  }

  datatype Vector = Vector(values: seq<real>)

  /** `[v1 + v2 for v1, v2 in zip(u, w)]` for lists of one length. */
  function Plus(u: seq<real>, w: seq<real>): seq<real>
    requires |u| == |w|
  {
    seq(|u|, i requires 0 <= i < |u| => u[i] + w[i])
  }

  /** `[v1 * v2 for v1, v2 in zip(u, w)]` for lists of one length. */
  function Products(u: seq<real>, w: seq<real>): seq<real>
    requires |u| == |w|
  {
    seq(|u|, i requires 0 <= i < |u| => Times(u[i], w[i]))
  }

  /** `Vector.__add__`: an AssertionError unless the dims agree, else the
      entrywise sum, of the same dim. */
  function VectorAdd(u: Vector, w: Vector): (r: Result<Vector>)
    ensures r.Err? <==> |u.values| != |w.values|
    ensures r.Err? ==> r.error == AssertionError
    ensures r.Ok? ==> (|r.value.values| == |u.values| &&
              forall i :: 0 <= i < |u.values| ==> r.value.values[i] == u.values[i] + w.values[i])
  {
    if |u.values| != |w.values| then Err(AssertionError) else Ok(Vector(Plus(u.values, w.values)))
  }

  /** `Vector.dotprod`: an AssertionError unless the dims agree, else the
      `Scalar` holding the sum of the entrywise products. */
  function Dotprod(u: Vector, w: Vector): (r: Result<Scalar>)
    ensures r.Err? <==> |u.values| != |w.values|
    ensures r.Err? ==> r.error == AssertionError
  {
    if |u.values| != |w.values| then Err(AssertionError)
    else Ok(Scalar(Sum(Products(u.values, w.values))))
  }

  lemma {:induction false} SumProductsPlus(u: seq<real>, w: seq<real>, v: seq<real>)
    requires |u| == |w| == |v|
    ensures Sum(Products(Plus(u, w), v)) == Sum(Products(u, v)) + Sum(Products(w, v))
  {
    if u != [] {
      var n := |u|;
      SumProductsPlus(u[..n - 1], w[..n - 1], v[..n - 1]);
      assert Products(Plus(u, w), v)[..n - 1] == Products(Plus(u[..n - 1], w[..n - 1]), v[..n - 1]);
      assert Products(u, v)[..n - 1] == Products(u[..n - 1], v[..n - 1]);
      assert Products(w, v)[..n - 1] == Products(w[..n - 1], v[..n - 1]);
      assert Times(u[n - 1] + w[n - 1], v[n - 1]) == Times(u[n - 1], v[n - 1]) + Times(w[n - 1], v[n - 1]);
    }
  }

  /** The dot product distributes over vector addition: the product with a
      sum of vectors is the `Scalar` sum of the two products. */
  lemma DotprodAddDistributes(u: Vector, w: Vector, v: Vector)
    requires |u.values| == |w.values| == |v.values|
    ensures VectorAdd(u, w).Ok? && Dotprod(u, v).Ok? && Dotprod(w, v).Ok?
    ensures Dotprod(VectorAdd(u, w).value, v) == Ok(ScalarAdd(Dotprod(u, v).value, Dotprod(w, v).value))
  {
    SumProductsPlus(u.values, w.values, v.values);
  }

  /** The dot product does not depend on the order of its operands. */
  lemma DotprodSymmetric(u: Vector, w: Vector)
    ensures Dotprod(u, w) == Dotprod(w, u)
  {
    if |u.values| == |w.values| {
      assert Products(u.values, w.values) == Products(w.values, u.values);
    }
  }

  /** The dot product of two one-entry vectors is the `Scalar` product of
      their entries. */
  lemma DotprodOfSingles(x: real, y: real)
    ensures Dotprod(Vector([x]), Vector([y])) == Ok(ScalarMul(Scalar(x), Scalar(y)))
  {
    assert Products([x], [y]) == [Times(x, y)];
    assert Sum([Times(x, y)]) == Sum([]) + Times(x, y);
  }

  // ---------------------------------------------------------------------
  // Matrix
  // ---------------------------------------------------------------------

  datatype Matrix = Matrix(values: seq<seq<real>>)

  /** The two entrywise operations, `+` and `*`. */
  datatype Op = Plus | Star

  function Apply(op: Op, x: real, y: real): real
  {
    match op
    case Plus => x + y
    case Star => Times(x, y)
  }

  /** `Matrix.dims()`: `(len(values), len(values[0]))`, IndexError without
      a first row. */
  function Dims(m: Matrix): (r: Result<(nat, nat)>)
    ensures r.Err? <==> m.values == []
    ensures r.Err? ==> r.error == IndexError
  {
    if m.values == [] then Err(IndexError) else Ok((|m.values|, |m.values[0]|))
  }

  /** `rows` rows of `cols` entries each. */
  ghost predicate Rect(vs: seq<seq<real>>, rows: nat, cols: nat)
  {
    |vs| == rows && forall q :: 0 <= q < |vs| ==> |vs[q]| == cols
  }

  /** Row `x` combined with row `y` over the first `cols` columns. */
  function CombinedRow(op: Op, x: seq<real>, y: seq<real>, cols: nat): seq<real>
    requires cols <= |x| && cols <= |y|
  {
    seq(cols, c requires 0 <= c < cols => Apply(op, x[c], y[c]))
  }

  /** The first `rows` rows of `a` combined with those of `b`. */
  function Combined(op: Op, a: seq<seq<real>>, b: seq<seq<real>>, rows: nat, cols: nat): seq<seq<real>>
    requires rows <= |a| && rows <= |b|
    requires forall q :: 0 <= q < rows ==> cols <= |a[q]| && cols <= |b[q]|
  {
    seq(rows, q requires 0 <= q < rows => CombinedRow(op, a[q], b[q], cols))
  }

  /** What `__add__` and `__mul__` compute: both dims are read (IndexError
      for a matrix without rows), they must agree (AssertionError), and
      then every row is read up to the width of the first row of `a`, so a
      shorter row of either raises IndexError. */
  function EntrywiseSpec(op: Op, a: Matrix, b: Matrix): Result<Matrix>
  {
    var da :- Dims(a);
    var db :- Dims(b);
    if da != db then Err(AssertionError)
    else if exists q :: 0 <= q < da.0 && (|a.values[q]| < da.1 || |b.values[q]| < da.1) then Err(IndexError)
    else Ok(Matrix(Combined(op, a.values, b.values, da.0, da.1)))
  }

  /** Two rectangular matrices of the same dims combine entry by entry into
      a matrix of those dims. */
  lemma EntrywiseRect(op: Op, a: Matrix, b: Matrix, rows: nat, cols: nat)
    requires rows > 0 && Rect(a.values, rows, cols) && Rect(b.values, rows, cols)
    ensures EntrywiseSpec(op, a, b).Ok?
    ensures var m := EntrywiseSpec(op, a, b).value.values;
            Rect(m, rows, cols) &&
            forall q, c :: 0 <= q < rows && 0 <= c < cols ==> m[q][c] == Apply(op, a.values[q][c], b.values[q][c])
  {
  }

  /** The inner loop of `__add__`/`__mul__` for one row. */
  method EntrywiseRow(op: Op, x: seq<real>, y: seq<real>, cols: nat) returns (r: Result<seq<real>>)
    ensures r.Err? <==> |x| < cols || |y| < cols
    ensures r.Err? ==> r.error == IndexError
    ensures r.Ok? ==> r.value == CombinedRow(op, x, y, cols)
  {
    var row := [];
    var c1 := 0;
    while c1 < cols
      invariant c1 <= cols && |row| == c1 && c1 <= |x| && c1 <= |y|
      invariant forall c :: 0 <= c < c1 ==> row[c] == Apply(op, x[c], y[c])
    {
      if c1 >= |x| || c1 >= |y| {
        return Err(IndexError);
      }
      row := row + [Apply(op, x[c1], y[c1])];
      c1 := c1 + 1;
    }
    return Ok(row);
  }

  /** `Matrix.__add__` (op `Plus`) and `Matrix.__mul__` (op `Star`). */
  method Entrywise(op: Op, a: Matrix, b: Matrix) returns (r: Result<Matrix>)
    ensures r == EntrywiseSpec(op, a, b)
  {
    var da := Dims(a);
    if da.Err? {
      return Err(da.error);
    }
    var db := Dims(b);
    if db.Err? {
      return Err(db.error);
    }
    if da.value != db.value {
      return Err(AssertionError);
    }
    var rows, cols := da.value.0, da.value.1;
    var out: seq<seq<real>> := [];
    var r1 := 0;
    while r1 < rows
      invariant r1 <= rows && |out| == r1
      invariant forall q :: 0 <= q < r1 ==> cols <= |a.values[q]| && cols <= |b.values[q]|
      invariant forall q :: 0 <= q < r1 ==> out[q] == CombinedRow(op, a.values[q], b.values[q], cols)
    {
      var row := EntrywiseRow(op, a.values[r1], b.values[r1], cols);
      if row.Err? {
        return Err(IndexError);
      }
      out := out + [row.value];
      r1 := r1 + 1;
    }
    assert !exists q :: 0 <= q < rows && (|a.values[q]| < cols || |b.values[q]| < cols);
    assert out == Combined(op, a.values, b.values, rows, cols);
    return Ok(Matrix(out));
  }

  /** Column `c` of the first `rows` rows. */
  function Column(vs: seq<seq<real>>, c: nat, rows: nat): seq<real>
    requires rows <= |vs| && forall q :: 0 <= q < rows ==> c < |vs[q]|
  {
    seq(rows, q requires 0 <= q < rows => vs[q][c])
  }

  /** The columns of the first `rows` rows, below `cols`, as rows. */
  function Transposed(vs: seq<seq<real>>, rows: nat, cols: nat): seq<seq<real>>
    requires rows <= |vs| && forall q :: 0 <= q < rows ==> cols <= |vs[q]|
  {
    seq(cols, c requires 0 <= c < cols => Column(vs, c, rows))
  }

  /** What `t()` computes: the dims are read (IndexError without a row),
      then column `c` of every row for each `c` below the width of the
      first row, so a shorter row raises IndexError. */
  function TransposeSpec(m: Matrix): Result<Matrix>
  {
    var d :- Dims(m);
    if exists q :: 0 <= q < d.0 && |m.values[q]| < d.1 then Err(IndexError)
    else Ok(Matrix(Transposed(m.values, d.0, d.1)))
  }

  /** Transposing swaps the dims and the indices, and transposing twice
      gives back a rectangular matrix with at least one column. */
  lemma TransposeTwice(m: Matrix, rows: nat, cols: nat)
    requires rows > 0 && cols > 0 && Rect(m.values, rows, cols)
    ensures TransposeSpec(m).Ok?
    ensures var t := TransposeSpec(m).value.values;
            Rect(t, cols, rows) && forall c, q :: 0 <= c < cols && 0 <= q < rows ==> t[c][q] == m.values[q][c]
    ensures TransposeSpec(TransposeSpec(m).value) == Ok(m)
  {
    var t := TransposeSpec(m).value;
    assert Dims(t) == Ok((cols, rows));
    assert !exists c :: 0 <= c < cols && |t.values[c]| < rows;
    var back := TransposeSpec(t).value.values;
    assert |back| == rows;
    forall q | 0 <= q < rows
      ensures back[q] == m.values[q]
    {
      assert |back[q]| == cols;
      forall c | 0 <= c < cols
        ensures back[q][c] == m.values[q][c]
      {
        assert back[q][c] == t.values[c][q];
      }
    }
    assert back == m.values;
  }

  /** Without columns, `t()` gives a matrix without rows, whose own `t()`
      raises IndexError: the round trip needs a column. */
  lemma TransposeWithoutColumns(m: Matrix, rows: nat)
    requires rows > 0 && Rect(m.values, rows, 0)
    ensures TransposeSpec(m) == Ok(Matrix([]))
    ensures TransposeSpec(Matrix([])) == Err(IndexError)
  {
    assert Dims(m) == Ok((rows, 0));
    assert Transposed(m.values, rows, 0) == [];
  }

  /** The inner loop of `t()`: column `c` of the first `rows` rows. */
  method ColumnOf(vs: seq<seq<real>>, c: nat, rows: nat) returns (r: Result<seq<real>>)
    requires rows <= |vs|
    ensures r.Err? <==> exists q :: 0 <= q < rows && |vs[q]| <= c
    ensures r.Err? ==> r.error == IndexError
    ensures r.Ok? ==> (forall q :: 0 <= q < rows ==> c < |vs[q]|) && r.value == Column(vs, c, rows)
  {
    var col := [];
    var q := 0;
    while q < rows
      invariant q <= rows && |col| == q
      invariant forall j :: 0 <= j < q ==> c < |vs[j]| && col[j] == vs[j][c]
    {
      if c >= |vs[q]| {
        return Err(IndexError);
      }
      col := col + [vs[q][c]];
      q := q + 1;
    }
    return Ok(col);
  }

  /** `Matrix.t()`. */
  method Transpose(m: Matrix) returns (r: Result<Matrix>)
    ensures r == TransposeSpec(m)
  {
    var d := Dims(m);
    if d.Err? {
      return Err(d.error);
    }
    var rows, cols := d.value.0, d.value.1;
    var out: seq<seq<real>> := [];
    var c := 0;
    while c < cols
      invariant c <= cols && |out| == c
      invariant forall q :: 0 <= q < rows ==> c <= |m.values[q]|
      invariant forall j :: 0 <= j < c ==> out[j] == Column(m.values, j, rows)
    {
      var col := ColumnOf(m.values, c, rows);
      if col.Err? {
        return Err(IndexError);
      }
      out := out + [col.value];
      c := c + 1;
    }
    assert !exists q :: 0 <= q < rows && |m.values[q]| < cols;
    assert out == Transposed(m.values, rows, cols);
    return Ok(Matrix(out));
  }

  /** Entry `c` of row `x` times `b` over the first `n` rows can be
      computed: `x` has `n` entries and each of those rows has column `c`. */
  predicate Reaches(x: seq<real>, b: seq<seq<real>>, c: nat, n: nat)
  {
    n <= |x| && n <= |b| && forall i :: 0 <= i < n ==> c < |b[i]|
  }

  /** `val` after `n` rounds of `val += x[i] * b[i][c]` from 0. */
  function ColumnDot(x: seq<real>, b: seq<seq<real>>, c: nat, n: nat): real
    requires Reaches(x, b, c, n)
  {
    if n == 0 then 0.0 else ColumnDot(x, b, c, n - 1) + Times(x[n - 1], b[n - 1][c])
  }

  /** A whole row of the product can be computed: with no column there is
      nothing to read, otherwise every entry reaches. */
  predicate RowReaches(x: seq<real>, b: seq<seq<real>>, n: nat, p: nat)
  {
    p == 0 || (n <= |x| && n <= |b| && forall i :: 0 <= i < n ==> p <= |b[i]|)
  }

  /** Row `x` times the first `n` rows of `b`, over `p` columns. */
  function ProductRow(x: seq<real>, b: seq<seq<real>>, n: nat, p: nat): seq<real>
    requires RowReaches(x, b, n, p)
  {
    seq(p, c requires 0 <= c < p => ColumnDot(x, b, c, n))
  }

  /** The first `rows` rows of `a` times `b`. */
  function Product(a: seq<seq<real>>, b: seq<seq<real>>, rows: nat, n: nat, p: nat): seq<seq<real>>
    requires rows <= |a| && forall q :: 0 <= q < rows ==> RowReaches(a[q], b, n, p)
  {
    seq(rows, q requires 0 <= q < rows => ProductRow(a[q], b, n, p))
  }

  /** What `matmul` computes: both dims are read (IndexError without rows),
      the width of `a` must be the height of `b` (AssertionError), then
      entry `(q, c)` is `sum(a[q][i] * b[i][c])`, and a row too short to
      read raises IndexError. */
  function MatMulSpec(a: Matrix, b: Matrix): Result<Matrix>
  {
    var da :- Dims(a);
    var db :- Dims(b);
    if da.1 != db.0 then Err(AssertionError)
    else if exists q :: 0 <= q < da.0 && !RowReaches(a.values[q], b.values, da.1, db.1) then Err(IndexError)
    else Ok(Matrix(Product(a.values, b.values, da.0, da.1, db.1)))
  }

  /** The innermost loop of `matmul`: one entry. */
  method EntryDot(x: seq<real>, b: seq<seq<real>>, c: nat, n: nat) returns (r: Result<real>)
    requires n <= |b|
    ensures r.Err? <==> !Reaches(x, b, c, n)
    ensures r.Err? ==> r.error == IndexError
    ensures r.Ok? ==> Reaches(x, b, c, n) && r.value == ColumnDot(x, b, c, n)
  {
    var val := 0.0;
    var i := 0;
    while i < n
      invariant i <= n && i <= |x| && forall j :: 0 <= j < i ==> c < |b[j]|
      invariant val == ColumnDot(x, b, c, i)
    {
      if i >= |x| || c >= |b[i]| {
        return Err(IndexError);
      }
      val := val + Times(x[i], b[i][c]);
      i := i + 1;
    }
    return Ok(val);
  }

  /** The middle loop of `matmul`: one row of the product. */
  method MatMulRow(x: seq<real>, b: seq<seq<real>>, n: nat, p: nat) returns (r: Result<seq<real>>)
    requires n <= |b|
    ensures r.Err? <==> !RowReaches(x, b, n, p)
    ensures r.Err? ==> r.error == IndexError
    ensures r.Ok? ==> (RowReaches(x, b, n, p) &&
              r.value == ProductRow(x, b, n, p))
  {
    var row := [];
    var c2 := 0;
    while c2 < p
      invariant c2 <= p && |row| == c2
      invariant c2 > 0 ==> n <= |x| && forall i :: 0 <= i < n ==> c2 <= |b[i]|
      invariant forall c :: 0 <= c < c2 ==> Reaches(x, b, c, n) && row[c] == ColumnDot(x, b, c, n)
    {
      var v := EntryDot(x, b, c2, n);
      if v.Err? {
        return Err(IndexError);
      }
      row := row + [v.value];
      c2 := c2 + 1;
    }
    return Ok(row);
  }

  /** `Matrix.matmul`. */
  method MatMul(a: Matrix, b: Matrix) returns (r: Result<Matrix>)
    ensures r == MatMulSpec(a, b)
  {
    var da := Dims(a);
    if da.Err? {
      return Err(da.error);
    }
    var db := Dims(b);
    if db.Err? {
      return Err(db.error);
    }
    if da.value.1 != db.value.0 {
      return Err(AssertionError);
    }
    var rows, n, p := da.value.0, da.value.1, db.value.1;
    var out: seq<seq<real>> := [];
    var r1 := 0;
    while r1 < rows
      invariant r1 <= rows && |out| == r1
      invariant forall q :: 0 <= q < r1 ==> RowReaches(a.values[q], b.values, n, p)
      invariant forall q :: 0 <= q < r1 ==> out[q] == ProductRow(a.values[q], b.values, n, p)
    {
      var row := MatMulRow(a.values[r1], b.values, n, p);
      if row.Err? {
        return Err(IndexError);
      }
      out := out + [row.value];
      r1 := r1 + 1;
    }
    assert !exists q :: 0 <= q < rows && !RowReaches(a.values[q], b.values, n, p);
    assert out == Product(a.values, b.values, rows, n, p);
    return Ok(Matrix(out));
  }

  /** The accumulated `val` is the `Vector.dotprod` sum of the row and the
      column. */
  lemma {:induction false} ColumnDotIsSum(x: seq<real>, b: seq<seq<real>>, c: nat, n: nat)
    requires Reaches(x, b, c, n)
    ensures ColumnDot(x, b, c, n) == Sum(Products(x[..n], Column(b, c, n)))
  {
    if n > 0 {
      ColumnDotIsSum(x, b, c, n - 1);
      var ps := Products(x[..n], Column(b, c, n));
      assert ps[..n - 1] == Products(x[..n - 1], Column(b, c, n - 1));
    }
  }

  /** For rectangular operands of matching dims, `matmul` gives a matrix of
      `a`'s height and `b`'s width whose entry `(q, c)` is the dot product
      of row `q` of `a` with row `c` of `b.t()`. */
  lemma MatMulIsDots(a: Matrix, b: Matrix, m: nat, n: nat, p: nat)
    requires m > 0 && n > 0 && Rect(a.values, m, n) && Rect(b.values, n, p)
    ensures MatMulSpec(a, b).Ok? && TransposeSpec(b).Ok?
    ensures var prod := MatMulSpec(a, b).value.values;
            var bt := TransposeSpec(b).value.values;
            Rect(prod, m, p) && |bt| == p &&
            forall q, c :: 0 <= q < m && 0 <= c < p ==>
              Dotprod(Vector(a.values[q]), Vector(bt[c])) == Ok(Scalar(prod[q][c]))
  {
    var prod := MatMulSpec(a, b).value.values;
    var bt := TransposeSpec(b).value.values;
    forall q, c | 0 <= q < m && 0 <= c < p
      ensures Dotprod(Vector(a.values[q]), Vector(bt[c])) == Ok(Scalar(prod[q][c]))
    {
      ColumnDotIsSum(a.values[q], b.values, c, n);
      assert a.values[q][..n] == a.values[q];
      assert bt[c] == Column(b.values, c, n);
    }
  }

  // ---------------------------------------------------------------------
  // Tensor
  // ---------------------------------------------------------------------

  /** A nested list: a number, or a list of tensors. */
  datatype Tensor = Num(x: real) | List(items: seq<Tensor>)

  /** `Tensor.dims()`: the length of each list met by following the first
      element down; an empty list has no first element (IndexError). */
  function TensorDims(t: Tensor): Result<seq<nat>>
  {
    match t
    case Num(_) => Ok([])
    case List(items) =>
      if items == [] then Err(IndexError)
      else
        var rest :- TensorDims(items[0]);
        Ok([|items|] + rest)
  }

  /** `dims` followed by what `r` holds, or `r`'s error. */
  function Prefixed(dims: seq<nat>, r: Result<seq<nat>>): Result<seq<nat>>
  {
    if r.Err? then r else Ok(dims + r.value)
  }

  /** The `while isinstance(l, list)` loop of `Tensor.dims()`. */
  method TensorDimsLoop(t: Tensor) returns (r: Result<seq<nat>>)
    ensures r == TensorDims(t)
  {
    var l := t;
    var dims: seq<nat> := [];
    assert TensorDims(t) == Prefixed(dims, TensorDims(l)) by {
      if TensorDims(t).Ok? {
        assert [] + TensorDims(t).value == TensorDims(t).value;
      }
    }
    while l.List?
      invariant TensorDims(t) == Prefixed(dims, TensorDims(l))
      decreases l
    {
      if l.items == [] {
        return Err(IndexError);
      }
      assert dims + [|l.items|] + [] == dims + [|l.items|];
      var rest := TensorDims(l.items[0]);
      if rest.Ok? {
        assert dims + ([|l.items|] + rest.value) == (dims + [|l.items|]) + rest.value;
      }
      dims := dims + [|l.items|];
      l := l.items[0];
    }
    assert dims + [] == dims;
    return Ok(dims);
  }

  /** A regular tensor of dims `d`: every list at depth `k` has `d[k] > 0`
      elements and the numbers sit at depth `|d|`. */
  ghost predicate Shaped(t: Tensor, d: seq<nat>)
    decreases t
  {
    if d == [] then t.Num?
    else (t.List? && d[0] > 0 && |t.items| == d[0] &&
          forall i :: 0 <= i < |t.items| ==> Shaped(t.items[i], d[1..]))
  }

  /** The dims of a regular tensor are its shape. */
  lemma {:induction false} ShapedDims(t: Tensor, d: seq<nat>)
    requires Shaped(t, d)
    ensures TensorDims(t) == Ok(d)
    decreases t
  {
    if d != [] {
      ShapedDims(t.items[0], d[1..]);
      assert d == [d[0]] + d[1..];
    }
  }

  /** The number at the end of `path`, 0.0 where there is none. */
  function Get(t: Tensor, path: seq<nat>): real
    decreases |path|
  {
    if path == [] then (if t.Num? then t.x else 0.0)
    else if t.List? && path[0] < |t.items| then Get(t.items[path[0]], path[1..])
    else 0.0
  }

  /** A list comprehension whose elements may raise: the first error, or
      all the values. */
  function Collect<T>(rs: seq<Result<T>>): (r: Result<seq<T>>)
    ensures r.Ok? <==> forall i :: 0 <= i < |rs| ==> rs[i].Ok?
    ensures r.Ok? ==> |r.value| == |rs| && forall i :: 0 <= i < |rs| ==> r.value[i] == rs[i].value
    ensures r.Err? ==> exists i :: (0 <= i < |rs| && rs[i] == Err(r.error) &&
              forall j :: 0 <= j < i ==> rs[j].Ok?)
  {
    if rs == [] then Ok([])
    else if rs[0].Err? then Err(rs[0].error)
    else
      var rest :- Collect(rs[1..]);
      Ok([rs[0].value] + rest)
  }

  /** `_inner_add` (op `Plus`) and `_inner_mul` (op `Star`): two numbers
      combine; a number with a list is a TypeError; a list maps over its
      own indices, reading `t2[i]`, which is a TypeError for a number and
      an IndexError past the end of `t2`. */
  function Inner(op: Op, t1: Tensor, t2: Tensor): Result<Tensor>
    decreases t1
  {
    match t1
    case Num(x) => if t2.Num? then Ok(Num(Apply(op, x, t2.x))) else Err(TypeError)
    case List(xs) =>
      var items :- Collect(seq(|xs|, i requires 0 <= i < |xs| =>
        if t2.Num? then Err(TypeError)
        else if i >= |t2.items| then Err(IndexError)
        else Inner(op, xs[i], t2.items[i])));
      Ok(List(items))
  }

  /** `Tensor.__add__` (op `Plus`) and `Tensor.__mul__` (op `Star`). */
  function TensorOp(op: Op, t1: Tensor, t2: Tensor): Result<Tensor>
  {
    var d1 :- TensorDims(t1);
    var d2 :- TensorDims(t2);
    if d1 != d2 then Err(AssertionError) else Inner(op, t1, t2)
  }

  lemma ApplyZero(op: Op)
    ensures Apply(op, 0.0, 0.0) == 0.0
  {
  }

  /** Regular tensors of one shape combine number by number into a tensor
      of that shape. */
  lemma {:induction false} InnerShaped(op: Op, t1: Tensor, t2: Tensor, d: seq<nat>)
    requires Shaped(t1, d) && Shaped(t2, d)
    ensures Inner(op, t1, t2).Ok? && Shaped(Inner(op, t1, t2).value, d)
    ensures forall path :: Get(Inner(op, t1, t2).value, path) == Apply(op, Get(t1, path), Get(t2, path))
    decreases t1
  {
    ApplyZero(op);
    if d != [] {
      var xs, ys := t1.items, t2.items;
      forall i | 0 <= i < |xs|
        ensures Inner(op, xs[i], ys[i]).Ok? && Shaped(Inner(op, xs[i], ys[i]).value, d[1..])
      {
        InnerShaped(op, xs[i], ys[i], d[1..]);
      }
      var r := Inner(op, t1, t2).value;
      assert |r.items| == |xs| && forall i :: 0 <= i < |xs| ==> r.items[i] == Inner(op, xs[i], ys[i]).value;
      forall path
        ensures Get(r, path) == Apply(op, Get(t1, path), Get(t2, path))
      {
        if path != [] && path[0] < |xs| {
          InnerShaped(op, xs[path[0]], ys[path[0]], d[1..]);
        }
      }
    }
  }

  /** `Tensor.__add__`/`__mul__` on regular tensors of one shape succeed,
      keep the shape and combine the numbers at every position; tensors of
      different dims raise AssertionError. */
  lemma TensorOpShaped(op: Op, t1: Tensor, t2: Tensor, d1: seq<nat>, d2: seq<nat>)
    requires Shaped(t1, d1) && Shaped(t2, d2)
    ensures d1 != d2 ==> TensorOp(op, t1, t2) == Err(AssertionError)
    ensures d1 == d2 ==> (TensorOp(op, t1, t2).Ok? && Shaped(TensorOp(op, t1, t2).value, d1) &&
              forall path :: Get(TensorOp(op, t1, t2).value, path) == Apply(op, Get(t1, path), Get(t2, path)))
  {
    ShapedDims(t1, d1);
    ShapedDims(t2, d2);
    if d1 == d2 {
      InnerShaped(op, t1, t2, d1);
    }
  }

  /** A list of numbers. */
  predicate IsNumberList(t: Tensor)
  {
    t.List? && forall j :: 0 <= j < |t.items| ==> t.items[j].Num?
  }

  /** The values a block at the matrix level hands to `Matrix(...)`: a list
      of lists of numbers; anything else is reported as TypeError. */
  function AsRows(t: Tensor): Result<seq<seq<real>>>
  {
    if t.Num? || exists i :: 0 <= i < |t.items| && !IsNumberList(t.items[i]) then Err(TypeError)
    else Ok(seq(|t.items|, i requires 0 <= i < |t.items| =>
           seq(|t.items[i].items|, j requires 0 <= j < |t.items[i].items| => t.items[i].items[j].x)))
  }

  /** Matrix values back as a nested list. */
  function FromRows(rows: seq<seq<real>>): Tensor
  {
    List(seq(|rows|, i requires 0 <= i < |rows| => List(seq(|rows[i]|, j requires 0 <= j < |rows[i]| => Num(rows[i][j])))))
  }

  /** `inner_matmul(t1, t2, d)` with `D = len(self.dims())`: at depth `D - 2`
      the blocks are multiplied as matrices; above it the lists are mapped
      index by index, as in `_inner_add`. */
  function BlockMatMul(t1: Tensor, t2: Tensor, d: nat, D: nat): Result<Tensor>
    requires d + 2 <= D
    decreases t1
  {
    if d == D - 2 then
      var a :- AsRows(t1);
      var b :- AsRows(t2);
      var m :- MatMulSpec(Matrix(a), Matrix(b));
      Ok(FromRows(m.values))
    else
      match t1
      case Num(_) => Err(TypeError)
      case List(xs) =>
        var items :- Collect(seq(|xs|, i requires 0 <= i < |xs| =>
          if t2.Num? then Err(TypeError)
          else if i >= |t2.items| then Err(IndexError)
          else BlockMatMul(xs[i], t2.items[i], d + 1, D)));
        Ok(List(items))
  }

  /** `Tensor.matmul`: the dims are read; all but the last two must agree
      and the last of `t1` must be the one before last of `t2`
      (AssertionError), reading `[-1]`/`[-2]` of too short dims raises
      IndexError. With one dim, the first element of `t1` is a number and
      `len` of it raises TypeError. */
  function TensorMatMul(t1: Tensor, t2: Tensor): Result<Tensor>
  {
    var d1 :- TensorDims(t1);
    var d2 :- TensorDims(t2);
    if PySlice(d1, 0, -2) != PySlice(d2, 0, -2) then Err(AssertionError)
    else if |d1| < 1 || |d2| < 2 then Err(IndexError)
    else if d1[|d1| - 1] != d2[|d2| - 2] then Err(AssertionError)
    else if |d1| < 2 then Err(TypeError)
    else BlockMatMul(t1, t2, 0, |d1|)
  }

  lemma AsRowsShaped(t: Tensor, m: nat, n: nat)
    requires Shaped(t, [m, n])
    ensures AsRows(t).Ok? && Rect(AsRows(t).value, m, n)
    ensures forall i, j :: 0 <= i < m && 0 <= j < n ==> AsRows(t).value[i][j] == t.items[i].items[j].x
  {
    forall i | 0 <= i < |t.items|
      ensures IsNumberList(t.items[i]) && |t.items[i].items| == n
    {
      assert Shaped(t.items[i], [m, n][1..]);
      assert [m, n][1..] == [n];
      forall j | 0 <= j < |t.items[i].items|
        ensures t.items[i].items[j].Num?
      {
        assert Shaped(t.items[i].items[j], [n][1..]);
      }
    }
  }

  lemma FromRowsShaped(rows: seq<seq<real>>, m: nat, p: nat)
    requires m > 0 && p > 0 && Rect(rows, m, p)
    ensures Shaped(FromRows(rows), [m, p])
  {
    var t := FromRows(rows);
    forall i | 0 <= i < m
      ensures Shaped(t.items[i], [m, p][1..])
    {
      assert [m, p][1..] == [p];
      forall j | 0 <= j < p
        ensures Shaped(t.items[i].items[j], [p][1..])
      {
      }
    }
  }

  /** The innermost block: two regular matrices whose inner dims match
      multiply into a regular `m` by `p` matrix. */
  lemma MatMulBlockShaped(t1: Tensor, t2: Tensor, m: nat, n: nat, p: nat, d: nat)
    requires Shaped(t1, [m, n]) && Shaped(t2, [n, p])
    ensures BlockMatMul(t1, t2, d, d + 2).Ok?
    ensures Shaped(BlockMatMul(t1, t2, d, d + 2).value, [m, p])
  {
    AsRowsShaped(t1, m, n);
    AsRowsShaped(t2, n, p);
    var a, b := AsRows(t1).value, AsRows(t2).value;
    assert m > 0 && n > 0 by {
      assert Shaped(t1.items[0], [m, n][1..]);
      assert [m, n][1..] == [n];
    }
    assert p > 0 by {
      assert Shaped(t2.items[0], [n, p][1..]);
      assert [n, p][1..] == [p];
    }
    assert !exists q :: 0 <= q < m && !RowReaches(a[q], b, n, p);
    FromRowsShaped(MatMulSpec(Matrix(a), Matrix(b)).value.values, m, p);
  }

  /** Above the innermost block, a list multiplies block by block when
      every block does. */
  lemma BlockMatMulList(t1: Tensor, t2: Tensor, d: nat, D: nat)
    requires d + 2 < D && t1.List? && t2.List? && |t1.items| <= |t2.items|
    requires forall i :: 0 <= i < |t1.items| ==> BlockMatMul(t1.items[i], t2.items[i], d + 1, D).Ok?
    ensures BlockMatMul(t1, t2, d, D).Ok? && BlockMatMul(t1, t2, d, D).value.List?
    ensures |BlockMatMul(t1, t2, d, D).value.items| == |t1.items|
    ensures forall i :: 0 <= i < |t1.items| ==>
              BlockMatMul(t1, t2, d, D).value.items[i] == BlockMatMul(t1.items[i], t2.items[i], d + 1, D).value
  {
  }

  /** A regular tensor with at least one leading dim is a non-empty list
      of regular tensors one dim shorter. */
  lemma ShapedItems(t: Tensor, pre: seq<nat>, last: seq<nat>)
    requires pre != [] && Shaped(t, pre + last)
    ensures t.List? && |t.items| == pre[0] > 0
    ensures forall i :: 0 <= i < |t.items| ==> Shaped(t.items[i], pre[1..] + last)
  {
    assert (pre + last)[1..] == pre[1..] + last;
  }

  /** The converse: a non-empty list of regular tensors of one shape is
      regular. */
  lemma ShapedFromItems(t: Tensor, pre: seq<nat>, last: seq<nat>)
    requires pre != [] && t.List? && |t.items| == pre[0] > 0
    requires forall i :: 0 <= i < |t.items| ==> Shaped(t.items[i], pre[1..] + last)
    ensures Shaped(t, pre + last)
  {
    assert (pre + last)[1..] == pre[1..] + last;
  }

  /** Block by block, regular tensors whose last two dims match multiply
      into a regular tensor with the same leading dims. */
  lemma {:induction false} BlockMatMulShaped(t1: Tensor, t2: Tensor, pre: seq<nat>, m: nat, n: nat, p: nat, d: nat)
    requires Shaped(t1, pre + [m, n]) && Shaped(t2, pre + [n, p])
    ensures BlockMatMul(t1, t2, d, d + |pre| + 2).Ok?
    ensures Shaped(BlockMatMul(t1, t2, d, d + |pre| + 2).value, pre + [m, p])
    decreases t1, 1
  {
    if pre == [] {
      assert [] + [m, n] == [m, n] && [] + [n, p] == [n, p] && [] + [m, p] == [m, p];
      MatMulBlockShaped(t1, t2, m, n, p, d);
    } else {
      ShapedItems(t1, pre, [m, n]);
      ShapedItems(t2, pre, [n, p]);
      BlockMatMulShapedItems(t1, t2, pre, m, n, p, d);
      BlockMatMulList(t1, t2, d, d + |pre| + 2);
      ShapedFromItems(BlockMatMul(t1, t2, d, d + |pre| + 2).value, pre, [m, p]);
    }
  }

  /** The step of `BlockMatMulShaped` above the innermost block: each pair
      of blocks multiplies by the induction hypothesis. */
  lemma {:induction false} BlockMatMulShapedItems(t1: Tensor, t2: Tensor, pre: seq<nat>, m: nat, n: nat, p: nat, d: nat)
    requires pre != [] && t1.List? && t2.List? && |t1.items| == |t2.items|
    requires forall i :: 0 <= i < |t1.items| ==> Shaped(t1.items[i], pre[1..] + [m, n])
    requires forall i :: 0 <= i < |t2.items| ==> Shaped(t2.items[i], pre[1..] + [n, p])
    ensures forall i :: 0 <= i < |t1.items| ==>
              BlockMatMul(t1.items[i], t2.items[i], d + 1, d + |pre| + 2).Ok? &&
              Shaped(BlockMatMul(t1.items[i], t2.items[i], d + 1, d + |pre| + 2).value, pre[1..] + [m, p])
    decreases t1, 0
  {
    forall i | 0 <= i < |t1.items|
      ensures BlockMatMul(t1.items[i], t2.items[i], d + 1, d + |pre| + 2).Ok? &&
              Shaped(BlockMatMul(t1.items[i], t2.items[i], d + 1, d + |pre| + 2).value, pre[1..] + [m, p])
    {
      BlockMatMulShaped(t1.items[i], t2.items[i], pre[1..], m, n, p, d + 1);
    }
  }

  /** `q` is the path of a block of a tensor whose leading dims are `pre`. */
  predicate IndexIn(q: seq<nat>, pre: seq<nat>)
  {
    |q| == |pre| && forall k :: 0 <= k < |q| ==> q[k] < pre[k]
  }

  /** The sum over `z < n` of `t1[q][i][z] * t2[q][z][c]`, read through
      `Get`: entry `(i, c)` of the product of the blocks at path `q`. */
  function PathDot(t1: Tensor, t2: Tensor, q: seq<nat>, i: nat, c: nat, n: nat): real
  {
    if n == 0 then 0.0 else PathDot(t1, t2, q, i, c, n - 1) + Times(Get(t1, q + [i, n - 1]), Get(t2, q + [n - 1, c]))
  }

  /** In a regular matrix, `Get` at `[i, j]` is the number `t[i][j]`. */
  lemma GetShaped(t: Tensor, m: nat, n: nat, i: nat, j: nat)
    requires Shaped(t, [m, n]) && i < m && j < n
    ensures t.List? && i < |t.items| && t.items[i].List? && j < |t.items[i].items| && t.items[i].items[j].Num?
    ensures Get(t, [i, j]) == t.items[i].items[j].x
  {
    assert [m, n][1..] == [n] && [n][1..] == [];
    assert Shaped(t.items[i], [n]);
    assert Shaped(t.items[i].items[j], []);
    assert [i, j][1..] == [j] && [j][1..] == [];
    assert Get(t, [i, j]) == Get(t.items[i], [j]) == Get(t.items[i].items[j], []);
  }

  /** The loop of `matmul` over the rows of two regular matrices sums the
      same products as `PathDot` at the empty path. */
  lemma {:induction false} ColumnDotIsPathDot(t1: Tensor, t2: Tensor, m: nat, n: nat, p: nat, i: nat, c: nat, k: nat)
    requires Shaped(t1, [m, n]) && Shaped(t2, [n, p]) && i < m && c < p && k <= n
    ensures AsRows(t1).Ok? && AsRows(t2).Ok?
    ensures Reaches(AsRows(t1).value[i], AsRows(t2).value, c, k)
    ensures ColumnDot(AsRows(t1).value[i], AsRows(t2).value, c, k) == PathDot(t1, t2, [], i, c, k)
  {
    AsRowsShaped(t1, m, n);
    AsRowsShaped(t2, n, p);
    if k > 0 {
      ColumnDotIsPathDot(t1, t2, m, n, p, i, c, k - 1);
      GetShaped(t1, m, n, i, k - 1);
      GetShaped(t2, n, p, k - 1, c);
      assert [] + [i, k - 1] == [i, k - 1] && [] + [k - 1, c] == [k - 1, c];
    }
  }

  /** The innermost block: entry `(i, c)` of the product is the sum of
      `t1[i][z] * t2[z][c]` over `z < n`. */
  lemma MatMulBlockEntries(t1: Tensor, t2: Tensor, m: nat, n: nat, p: nat, d: nat)
    requires Shaped(t1, [m, n]) && Shaped(t2, [n, p])
    ensures BlockMatMul(t1, t2, d, d + 2).Ok?
    ensures forall i: nat, c: nat :: i < m && c < p ==>
              Get(BlockMatMul(t1, t2, d, d + 2).value, [i, c]) == PathDot(t1, t2, [], i, c, n)
  {
    MatMulBlockShaped(t1, t2, m, n, p, d);
    AsRowsShaped(t1, m, n);
    AsRowsShaped(t2, n, p);
    var a, b := AsRows(t1).value, AsRows(t2).value;
    assert m > 0 && n > 0 by {
      assert Shaped(t1.items[0], [m, n][1..]);
      assert [m, n][1..] == [n];
    }
    assert p > 0 by {
      assert Shaped(t2.items[0], [n, p][1..]);
      assert [n, p][1..] == [p];
    }
    assert Dims(Matrix(a)) == Ok((m, n)) && Dims(Matrix(b)) == Ok((n, p));
    assert !exists q :: 0 <= q < m && !RowReaches(a[q], b, n, p);
    var rows := Product(a, b, m, n, p);
    assert BlockMatMul(t1, t2, d, d + 2).value == FromRows(rows);
    forall i: nat, c: nat | i < m && c < p
      ensures Get(BlockMatMul(t1, t2, d, d + 2).value, [i, c]) == PathDot(t1, t2, [], i, c, n)
    {
      var t := FromRows(rows);
      assert |rows[i]| == p;
      assert t.items[i].items[c] == Num(rows[i][c]);
      assert [i, c][1..] == [c] && [c][1..] == [];
      assert Get(t, [i, c]) == Get(t.items[i], [c]) == Get(t.items[i].items[c], []);
      ColumnDotIsPathDot(t1, t2, m, n, p, i, c, n);
    }
  }

  /** Reading the blocks at path `q` is reading the blocks at `q[1..]`
      inside element `q[0]`. */
  lemma {:induction false} PathDotStep(t1: Tensor, t2: Tensor, q: seq<nat>, i: nat, c: nat, k: nat)
    requires q != [] && t1.List? && t2.List? && q[0] < |t1.items| && q[0] < |t2.items|
    ensures PathDot(t1, t2, q, i, c, k) == PathDot(t1.items[q[0]], t2.items[q[0]], q[1..], i, c, k)
  {
    if k > 0 {
      PathDotStep(t1, t2, q, i, c, k - 1);
      assert (q + [i, k - 1])[1..] == q[1..] + [i, k - 1];
      assert (q + [k - 1, c])[1..] == q[1..] + [k - 1, c];
    }
  }

  /** Block by block, entry `(i, c)` of the block at path `q` of the
      product is the sum of `t1[q][i][z] * t2[q][z][c]` over `z < n`. */
  lemma {:induction false} BlockMatMulEntry(t1: Tensor, t2: Tensor, pre: seq<nat>, m: nat, n: nat, p: nat, d: nat,
                                            q: seq<nat>, i: nat, c: nat)
    requires Shaped(t1, pre + [m, n]) && Shaped(t2, pre + [n, p])
    requires IndexIn(q, pre) && i < m && c < p
    ensures BlockMatMul(t1, t2, d, d + |pre| + 2).Ok?
    ensures Get(BlockMatMul(t1, t2, d, d + |pre| + 2).value, q + [i, c]) == PathDot(t1, t2, q, i, c, n)
    decreases t1
  {
    if pre == [] {
      assert [] + [m, n] == [m, n] && [] + [n, p] == [n, p];
      MatMulBlockEntries(t1, t2, m, n, p, d);
      assert q == [] && q + [i, c] == [i, c];
    } else {
      var j := q[0];
      ShapedItems(t1, pre, [m, n]);
      ShapedItems(t2, pre, [n, p]);
      assert IndexIn(q[1..], pre[1..]);
      BlockMatMulEntry(t1.items[j], t2.items[j], pre[1..], m, n, p, d + 1, q[1..], i, c);
      BlockMatMulItem(t1, t2, pre, m, n, p, d, j);
      EntryLift(t1, t2, BlockMatMul(t1, t2, d, d + |pre| + 2).value, q, i, c, n);
    }
  }

  /** Above the innermost block, element `j` of the product of regular
      tensors is the product of their elements `j`. */
  lemma BlockMatMulItem(t1: Tensor, t2: Tensor, pre: seq<nat>, m: nat, n: nat, p: nat, d: nat, j: nat)
    requires pre != [] && j < pre[0]
    requires Shaped(t1, pre + [m, n]) && Shaped(t2, pre + [n, p])
    ensures t1.List? && t2.List? && j < |t1.items| && j < |t2.items|
    ensures BlockMatMul(t1, t2, d, d + |pre| + 2).Ok? && BlockMatMul(t1, t2, d, d + |pre| + 2).value.List?
    ensures j < |BlockMatMul(t1, t2, d, d + |pre| + 2).value.items|
    ensures BlockMatMul(t1.items[j], t2.items[j], d + 1, d + |pre| + 2).Ok?
    ensures BlockMatMul(t1, t2, d, d + |pre| + 2).value.items[j] ==
              BlockMatMul(t1.items[j], t2.items[j], d + 1, d + |pre| + 2).value
  {
    ShapedItems(t1, pre, [m, n]);
    ShapedItems(t2, pre, [n, p]);
    BlockMatMulShapedItems(t1, t2, pre, m, n, p, d);
    BlockMatMulList(t1, t2, d, d + |pre| + 2);
  }

  /** An entry of block `q[1..]` of element `q[0]` is the entry of block
      `q`, on both sides of `BlockMatMulEntry`. */
  lemma EntryLift(t1: Tensor, t2: Tensor, r: Tensor, q: seq<nat>, i: nat, c: nat, n: nat)
    requires q != [] && t1.List? && t2.List? && r.List?
    requires q[0] < |t1.items| && q[0] < |t2.items| && q[0] < |r.items|
    requires Get(r.items[q[0]], q[1..] + [i, c]) == PathDot(t1.items[q[0]], t2.items[q[0]], q[1..], i, c, n)
    ensures Get(r, q + [i, c]) == PathDot(t1, t2, q, i, c, n)
  {
    assert (q + [i, c])[1..] == q[1..] + [i, c];
    PathDotStep(t1, t2, q, i, c, n);
  }

  /** `BlockMatMulEntry` for every block path and every entry. */
  lemma BlockMatMulEntries(t1: Tensor, t2: Tensor, pre: seq<nat>, m: nat, n: nat, p: nat, d: nat)
    requires Shaped(t1, pre + [m, n]) && Shaped(t2, pre + [n, p])
    ensures BlockMatMul(t1, t2, d, d + |pre| + 2).Ok?
    ensures forall q: seq<nat>, i: nat, c: nat :: IndexIn(q, pre) && i < m && c < p ==>
              Get(BlockMatMul(t1, t2, d, d + |pre| + 2).value, q + [i, c]) == PathDot(t1, t2, q, i, c, n)
  {
    BlockMatMulShaped(t1, t2, pre, m, n, p, d);
    forall q: seq<nat>, i: nat, c: nat | IndexIn(q, pre) && i < m && c < p
      ensures Get(BlockMatMul(t1, t2, d, d + |pre| + 2).value, q + [i, c]) == PathDot(t1, t2, q, i, c, n)
    {
      BlockMatMulEntry(t1, t2, pre, m, n, p, d, q, i, c);
    }
  }

  /** `Tensor.matmul` of regular tensors with equal leading dims and
      matching inner dims is a regular tensor of dims `pre + [m, p]`. */
  lemma TensorMatMulShaped(t1: Tensor, t2: Tensor, pre: seq<nat>, m: nat, n: nat, p: nat)
    requires Shaped(t1, pre + [m, n]) && Shaped(t2, pre + [n, p])
    ensures TensorMatMul(t1, t2).Ok? && Shaped(TensorMatMul(t1, t2).value, pre + [m, p])
    ensures forall q: seq<nat>, i: nat, c: nat :: IndexIn(q, pre) && i < m && c < p ==>
              Get(TensorMatMul(t1, t2).value, q + [i, c]) == PathDot(t1, t2, q, i, c, n)
  {
    ShapedDims(t1, pre + [m, n]);
    ShapedDims(t2, pre + [n, p]);
    var d1, d2 := pre + [m, n], pre + [n, p];
    assert PySlice(d1, 0, -2) == pre;
    assert PySlice(d2, 0, -2) == pre;
    BlockMatMulShaped(t1, t2, pre, m, n, p, 0);
    BlockMatMulEntries(t1, t2, pre, m, n, p, 0);
  }

  /** The first assertion of `Tensor.matmul` on regular tensors: leading
      dims that differ raise AssertionError. */
  lemma TensorMatMulMismatch(t1: Tensor, t2: Tensor, d1: seq<nat>, d2: seq<nat>)
    requires Shaped(t1, d1) && Shaped(t2, d2)
    requires PySlice(d1, 0, -2) != PySlice(d2, 0, -2)
    ensures TensorMatMul(t1, t2) == Err(AssertionError)
  {
    ShapedDims(t1, d1);
    ShapedDims(t2, d2);
  }

  /** With equal leading dims: dims too short to read `[-1]` and `[-2]`
      raise IndexError, and a last dim of `t1` that is not the one before
      last of `t2` raises AssertionError. */
  lemma TensorMatMulInnerMismatch(t1: Tensor, t2: Tensor, d1: seq<nat>, d2: seq<nat>)
    requires Shaped(t1, d1) && Shaped(t2, d2)
    requires PySlice(d1, 0, -2) == PySlice(d2, 0, -2)
    ensures |d1| < 1 || |d2| < 2 ==> TensorMatMul(t1, t2) == Err(IndexError)
    ensures |d1| >= 1 && |d2| >= 2 && d1[|d1| - 1] != d2[|d2| - 2] ==> TensorMatMul(t1, t2) == Err(AssertionError)
  {
    ShapedDims(t1, d1);
    ShapedDims(t2, d2);
  }
}
