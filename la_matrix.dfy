/** The `Matrix` of lib/linear_algebra.py: a list of rows of nodes. Builders
    return a fresh `Matrix` over new nodes; `max` overwrites the entries in
    place and returns the receiver; `zero_grad` and `backward` act on the
    nodes of every entry. Rows may have different lengths, as in the
    source, and every operator says what it does with them. */
module LinearAlgebraMatrix {
  import opened Common
  import opened Calculus
  import opened Backprop
  import opened Nodes
  import opened LinearAlgebra
  import ValueEngine

  /** Every entry of every row names a node of `d`. */
  predicate RowsWithin(d: seq<real>, m: seq<seq<NodeId>>)
  {
    forall i :: 0 <= i < |m| ==> Within(d, m[i])
  }

  /** The `data` of column `k`: entry `k` of every row. */
  function ColumnData(d: seq<real>, m: seq<seq<NodeId>>, k: nat): (r: seq<real>)
    requires RowsWithin(d, m) && forall i :: 0 <= i < |m| ==> k < |m[i]|
    ensures |r| == |m| && forall i :: 0 <= i < |m| ==> r[i] == d[m[i][k]]
  {
    seq(|m|, i requires 0 <= i < |m| => d[m[i][k]])
  }

  /** The four kinds of right operand `Matrix.__add__` dispatches on. */
  datatype Addend =
    | MatrixAddend(m: Matrix)
    | VectorAddend(v: Vector)
    | NodeAddend(id: NodeId)
    | NumberAddend(x: real)

  /** The gradients after calling `backward()` on each listed node in turn,
      stopping at the first call that raises. */
  ghost function BackwardEach(g: Graph, vs: seq<NodeId>, grad: seq<real>): (r: Outcome)
    requires Valid(g) && |grad| == |g.rules| && forall i :: 0 <= i < |vs| ==> vs[i] < |g.rules|
    decreases |vs|
  {
    if vs == [] then Outcome(grad, None)
    else
      var first := BackwardSpec(g, vs[0], grad);
      PropagateLength(g, Descending(Descendants(g, vs[0]), |g.rules|), grad);
      if first.raised.Some? then first else BackwardEach(g, vs[1..], first.grad)
  }

  lemma {:induction false} PropagateLength(g: Graph, ord: seq<NodeId>, grad: seq<real>)
    requires Valid(g) && InGraph(g, ord) && |grad| == |g.rules|
    ensures |Propagate(g, ord, grad).grad| == |grad|
    decreases |ord|
  {
    if ord != [] {
      StepEffect(g, ord[0], grad);
      var o := Step(g, ord[0], grad);
      if o.raised == None {
        PropagateLength(g, ord[1..], o.grad);
      }
    }
  }

  class Matrix {
    var values: seq<seq<NodeId>>

    /** Every entry is a node of `arena`. */
    predicate In(arena: Arena)
      reads this, arena
    {
      RowsWithin(arena.data, values)
    }

    /** `Matrix(result)` for a list of rows that already holds nodes: the
        rows are copied and the nodes kept. */
    constructor Of(rows: seq<seq<NodeId>>)
      ensures values == rows
    {
      values := rows;
    }

    /** `Matrix.__init__`: each row is wrapped like a `Vector`'s values,
        nodes kept by identity and plain numbers made fresh leaves. */
    constructor (arena: Arena, rows: seq<seq<Arg>>)
      requires arena.Valid()
      requires forall i, j :: 0 <= i < |rows| && 0 <= j < |rows[i]| ==> arena.ArgIn(rows[i][j])
      modifies arena
      ensures arena.Valid() && Extends(old(arena.data), arena.data) && In(arena)
      ensures |values| == |rows| && forall i :: 0 <= i < |rows| ==> |values[i]| == |rows[i]|
      ensures forall i, j :: 0 <= i < |rows| && 0 <= j < |rows[i]| ==>
                arena.data[values[i][j]] == old(arena.ArgData(rows[i][j]))
      ensures forall i, j :: 0 <= i < |rows| && 0 <= j < |rows[i]| && rows[i][j].Node? ==>
                values[i][j] == rows[i][j].id
    {
      ghost var d0 := arena.data;
      var result := [];
      var i := 0;
      while i < |rows|
        invariant 0 <= i <= |rows| && |result| == i
        invariant arena.Valid() && Extends(d0, arena.data) && RowsWithin(arena.data, result)
        invariant forall k, j :: 0 <= k < |rows| && 0 <= j < |rows[k]| ==>
                    arena.ArgIn(rows[k][j]) && arena.ArgData(rows[k][j]) == old(arena.ArgData(rows[k][j]))
        invariant forall k :: 0 <= k < i ==> |result[k]| == |rows[k]|
        invariant forall k, j :: 0 <= k < i && 0 <= j < |rows[k]| ==>
                    arena.data[result[k][j]] == old(arena.ArgData(rows[k][j]))
        invariant forall k, j :: 0 <= k < i && 0 <= j < |rows[k]| && rows[k][j].Node? ==>
                    result[k][j] == rows[k][j].id
      {
        var row := Wrap(arena, rows[i]);
        result := result + [row];
        i := i + 1;
      }
      values := result;
    }

    /** `dims()`: the row count and the length of the first row; with no
        rows, `values[0]` raises IndexError. */
    function Dims(): (r: Result<(nat, nat)>)
      reads this
      ensures r.Err? <==> |values| == 0
      ensures r.Ok? ==> r.value == (|values|, |values[0]|)
    {
      if |values| == 0 then Err(IndexError) else Ok((|values|, |values[0]|))
    }

    /** `self <op> other` for two matrices (`__add__` with a Matrix,
        `__mul__`): rows and entries are paired by `zip`, so each dimension
        is the shorter of the two. */
    method CombineMatrix(arena: Arena, op: Combine, other: Matrix) returns (r: Matrix)
      requires arena.Valid() && In(arena) && other.In(arena)
      modifies arena
      ensures arena.Valid() && Extends(old(arena.data), arena.data) && fresh(r) && r.In(arena)
      ensures |r.values| == Common.Min(|values|, |other.values|)
      ensures forall i :: 0 <= i < |r.values| ==> |r.values[i]| == Common.Min(|values[i]|, |other.values[i]|)
      ensures forall i, j :: 0 <= i < |r.values| && 0 <= j < |r.values[i]| ==>
                i < |values| && i < |other.values| && j < |values[i]| && j < |other.values[i]| &&
                arena.data[r.values[i][j]] ==
                Combined(op, old(arena.data[values[i][j]]), old(arena.data[other.values[i][j]]))
    {
      ghost var d0 := arena.data;
      var result := [];
      var i := 0;
      while i < |values| && i < |other.values|
        invariant 0 <= i <= Common.Min(|values|, |other.values|) && |result| == i
        invariant arena.Valid() && Extends(d0, arena.data) && RowsWithin(arena.data, result)
        invariant In(arena) && other.In(arena)
        invariant forall k :: 0 <= k < i ==> |result[k]| == Common.Min(|values[k]|, |other.values[k]|)
        invariant forall k, j :: 0 <= k < i && 0 <= j < |result[k]| ==>
                    arena.data[result[k][j]] == Combined(op, d0[values[k][j]], d0[other.values[k][j]])
      {
        var row := Zip(arena, op, values[i], other.values[i]);
        result := result + [row];
        i := i + 1;
      }
      r := new Matrix.Of(result);
    }

    /** `self + other` with `other` a list of nodes combined with every row
        (`__add__` with a Vector): each row is cut to the shorter of the two. */
    method AddToRows(arena: Arena, ys: seq<NodeId>) returns (r: Matrix)
      requires arena.Valid() && In(arena) && Within(arena.data, ys)
      modifies arena
      ensures arena.Valid() && Extends(old(arena.data), arena.data) && fresh(r) && r.In(arena)
      ensures |r.values| == |values|
      ensures forall i :: 0 <= i < |values| ==> |r.values[i]| == Common.Min(|values[i]|, |ys|)
      ensures forall i, j :: 0 <= i < |r.values| && 0 <= j < |r.values[i]| ==>
                j < |values[i]| && j < |ys| &&
                arena.data[r.values[i][j]] == old(arena.data[values[i][j]]) + old(arena.data[ys[j]])
    {
      ghost var d0 := arena.data;
      var result := [];
      var i := 0;
      while i < |values|
        invariant 0 <= i <= |values| && |result| == i
        invariant arena.Valid() && Extends(d0, arena.data) && RowsWithin(arena.data, result)
        invariant In(arena) && Within(arena.data, ys)
        invariant forall k :: 0 <= k < i ==> |result[k]| == Common.Min(|values[k]|, |ys|)
        invariant forall k, j :: 0 <= k < i && 0 <= j < |result[k]| ==>
                    arena.data[result[k][j]] == d0[values[k][j]] + d0[ys[j]]
      {
        var row := Zip(arena, Added, values[i], ys);
        result := result + [row];
        i := i + 1;
      }
      r := new Matrix.Of(result);
    }

    /** `self + other` with `other` one node (`__add__` with a Value): the
        node is added to every entry. */
    method AddNode(arena: Arena, x: NodeId) returns (r: Matrix)
      requires arena.Valid() && In(arena) && x < |arena.data|
      modifies arena
      ensures arena.Valid() && Extends(old(arena.data), arena.data) && fresh(r) && r.In(arena)
      ensures |r.values| == |values| && forall i :: 0 <= i < |values| ==> |r.values[i]| == |values[i]|
      ensures forall i, j :: 0 <= i < |r.values| && 0 <= j < |r.values[i]| ==>
                arena.data[r.values[i][j]] == old(arena.data[values[i][j]]) + old(arena.data[x])
    {
      ghost var d0 := arena.data;
      var result := [];
      var i := 0;
      while i < |values|
        invariant 0 <= i <= |values| && |result| == i
        invariant arena.Valid() && Extends(d0, arena.data) && RowsWithin(arena.data, result)
        invariant In(arena) && x < |arena.data|
        invariant forall k :: 0 <= k < i ==> |result[k]| == |values[k]|
        invariant forall k, j :: 0 <= k < i && 0 <= j < |result[k]| ==>
                    arena.data[result[k][j]] == d0[values[k][j]] + d0[x]
      {
        var row := Zip(arena, Added, values[i], Repeat(x, |values[i]|));
        result := result + [row];
        i := i + 1;
      }
      r := new Matrix.Of(result);
    }

    /** `Matrix.__add__`: a Matrix adds entrywise, a Vector is added to every
        row, a node to every entry, and a plain number is first made a leaf
        and then added to every entry. `__radd__` routes every one of these
        kinds to the same code. */
    method Add(arena: Arena, other: Addend) returns (r: Matrix)
      requires arena.Valid() && In(arena)
      requires other.MatrixAddend? ==> other.m.In(arena)
      requires other.VectorAddend? ==> Within(arena.data, other.v.values)
      requires other.NodeAddend? ==> other.id < |arena.data|
      modifies arena
      ensures arena.Valid() && Extends(old(arena.data), arena.data) && fresh(r) && r.In(arena)
      ensures other.MatrixAddend? ==> (
                |r.values| == Common.Min(|values|, |other.m.values|) &&
                (forall i :: 0 <= i < |r.values| ==> |r.values[i]| == Common.Min(|values[i]|, |other.m.values[i]|)) &&
                forall i, j :: 0 <= i < |r.values| && 0 <= j < |r.values[i]| ==>
                  arena.data[r.values[i][j]] == old(arena.data[values[i][j]]) + old(arena.data[other.m.values[i][j]]))
      ensures other.VectorAddend? ==> (
                |r.values| == |values| &&
                (forall i :: 0 <= i < |r.values| ==> |r.values[i]| == Common.Min(|values[i]|, |other.v.values|)) &&
                forall i, j :: 0 <= i < |r.values| && 0 <= j < |r.values[i]| ==>
                  arena.data[r.values[i][j]] == old(arena.data[values[i][j]]) + old(arena.data[other.v.values[j]]))
      ensures other.NodeAddend? ==> (
                |r.values| == |values| &&
                (forall i :: 0 <= i < |r.values| ==> |r.values[i]| == |values[i]|) &&
                forall i, j :: 0 <= i < |r.values| && 0 <= j < |r.values[i]| ==>
                  arena.data[r.values[i][j]] == old(arena.data[values[i][j]]) + old(arena.data[other.id]))
      ensures other.NumberAddend? ==> (
                |r.values| == |values| &&
                (forall i :: 0 <= i < |r.values| ==> |r.values[i]| == |values[i]|) &&
                forall i, j :: 0 <= i < |r.values| && 0 <= j < |r.values[i]| ==>
                  arena.data[r.values[i][j]] == old(arena.data[values[i][j]]) + other.x)
    {
      match other
      case MatrixAddend(m) =>
        r := CombineMatrix(arena, Added, m);
      case VectorAddend(v) =>
        r := AddToRows(arena, v.values);
      case NodeAddend(x) =>
        r := AddNode(arena, x);
      case NumberAddend(x) =>
        var leaf := arena.Leaf(x);
        r := AddNode(arena, leaf);
    }

    /** `-self`, `self ** p`, `exp()`, `ln()`: one new node per entry, same
        shape; only a power can raise, at a zero entry with a negative
        exponent. */
    method Map(arena: Arena, num: Numerics, f: Unary) returns (r: Result<Matrix>)
      requires arena.Valid() && In(arena)
      modifies arena
      ensures arena.Valid() && Extends(old(arena.data), arena.data)
      ensures r.Err? <==> exists i, j :: 0 <= i < |values| && 0 <= j < |values[i]| &&
                                          Mapped(num, f, old(arena.data[values[i][j]])).Err?
      ensures !f.Raised? ==> r.Ok?
      ensures r.Ok? ==> fresh(r.value) && r.value.In(arena)
      ensures r.Ok? ==> |r.value.values| == |values| && forall i :: 0 <= i < |values| ==> |r.value.values[i]| == |values[i]|
      ensures r.Ok? ==> forall i, j :: 0 <= i < |values| && 0 <= j < |values[i]| ==>
                arena.data[r.value.values[i][j]] == Mapped(num, f, old(arena.data[values[i][j]])).value
    {
      ghost var d0 := arena.data;
      var result := [];
      var i := 0;
      while i < |values|
        invariant 0 <= i <= |values| && |result| == i
        invariant arena.Valid() && Extends(d0, arena.data) && RowsWithin(arena.data, result) && In(arena)
        invariant forall k, j :: 0 <= k < i && 0 <= j < |values[k]| ==> Mapped(num, f, d0[values[k][j]]).Ok?
        invariant forall k :: 0 <= k < i ==> |result[k]| == |values[k]|
        invariant forall k, j :: 0 <= k < i && 0 <= j < |values[k]| ==>
                    arena.data[result[k][j]] == Mapped(num, f, d0[values[k][j]]).value
      {
        var row := MapRow(arena, num, f, values[i]);
        if row.Err? {
          return Err(row.error);
        }
        result := result + [row.value];
        i := i + 1;
      }
      var m := new Matrix.Of(result);
      r := Ok(m);
    }

    /** `self - other`: `self + (-other)`, where negating a Matrix or Vector
        negates every entry, a node gets a negation node and a number is
        negated. */
    method Sub(arena: Arena, num: Numerics, other: Addend) returns (r: Matrix)
      requires arena.Valid() && In(arena)
      requires other.MatrixAddend? ==> other.m.In(arena)
      requires other.VectorAddend? ==> Within(arena.data, other.v.values)
      requires other.NodeAddend? ==> other.id < |arena.data|
      modifies arena
      ensures arena.Valid() && Extends(old(arena.data), arena.data) && fresh(r) && r.In(arena)
      ensures other.MatrixAddend? ==> (
                |r.values| == Common.Min(|values|, |other.m.values|) &&
                (forall i :: 0 <= i < |r.values| ==> |r.values[i]| == Common.Min(|values[i]|, |other.m.values[i]|)) &&
                forall i, j :: 0 <= i < |r.values| && 0 <= j < |r.values[i]| ==>
                  arena.data[r.values[i][j]] == old(arena.data[values[i][j]]) - old(arena.data[other.m.values[i][j]]))
      ensures other.VectorAddend? ==> (
                |r.values| == |values| &&
                (forall i :: 0 <= i < |r.values| ==> |r.values[i]| == Common.Min(|values[i]|, |other.v.values|)) &&
                forall i, j :: 0 <= i < |r.values| && 0 <= j < |r.values[i]| ==>
                  arena.data[r.values[i][j]] == old(arena.data[values[i][j]]) - old(arena.data[other.v.values[j]]))
      ensures other.NodeAddend? ==> (
                |r.values| == |values| &&
                (forall i :: 0 <= i < |r.values| ==> |r.values[i]| == |values[i]|) &&
                forall i, j :: 0 <= i < |r.values| && 0 <= j < |r.values[i]| ==>
                  arena.data[r.values[i][j]] == old(arena.data[values[i][j]]) - old(arena.data[other.id]))
      ensures other.NumberAddend? ==> (
                |r.values| == |values| &&
                (forall i :: 0 <= i < |r.values| ==> |r.values[i]| == |values[i]|) &&
                forall i, j :: 0 <= i < |r.values| && 0 <= j < |r.values[i]| ==>
                  arena.data[r.values[i][j]] == old(arena.data[values[i][j]]) - other.x)
    {
      ghost var d0 := arena.data;
      match other
      case MatrixAddend(m) =>
        var negated := m.Map(arena, num, Negated);
        var n := negated.value;
        ghost var d1 := arena.data;
        assert forall i, j :: 0 <= i < |m.values| && 0 <= j < |m.values[i]| ==>
          d1[n.values[i][j]] == -d0[m.values[i][j]];
        assert forall i, j :: 0 <= i < |values| && 0 <= j < |values[i]| ==> d1[values[i][j]] == d0[values[i][j]];
        r := Add(arena, MatrixAddend(n));
      case VectorAddend(v) =>
        var negated := VectorNeg(arena, num, v);
        ghost var d1 := arena.data;
        assert forall i, j :: 0 <= i < |values| && 0 <= j < |values[i]| ==> d1[values[i][j]] == d0[values[i][j]];
        r := Add(arena, VectorAddend(negated));
      case NodeAddend(x) =>
        var negated := arena.Neg(x);
        r := Add(arena, NodeAddend(negated));
      case NumberAddend(x) =>
        r := Add(arena, NumberAddend(-x));
    }

    /** `self ** -1`: every entry inverted, ZeroDivisionError at a zero. */
    method Reciprocals(arena: Arena, num: Numerics) returns (r: Result<Matrix>)
      requires arena.Valid() && In(arena)
      modifies arena
      ensures arena.Valid() && Extends(old(arena.data), arena.data)
      ensures r.Err? <==> exists i, j :: 0 <= i < |values| && 0 <= j < |values[i]| &&
                                          old(arena.data[values[i][j]]) == 0.0
      ensures r.Ok? ==> fresh(r.value) && r.value.In(arena)
      ensures r.Ok? ==> |r.value.values| == |values| && forall i :: 0 <= i < |values| ==> |r.value.values[i]| == |values[i]|
      ensures r.Ok? ==> forall i, j :: 0 <= i < |values| && 0 <= j < |values[i]| ==>
                arena.data[r.value.values[i][j]] * old(arena.data[values[i][j]]) == 1.0
    {
      ghost var d0 := arena.data;
      r := Map(arena, num, Raised(-1.0));
      if r.Ok? {
        forall i, j | 0 <= i < |values| && 0 <= j < |values[i]|
          ensures arena.data[r.value.values[i][j]] * d0[values[i][j]] == 1.0
        {
          Inverse(num, d0[values[i][j]]);
        }
      }
    }

    /** `self / other` for a matrix `other`: `self * other ** -1`. Every
        entry of `other` is inverted first, so a zero anywhere in `other`
        raises ZeroDivisionError; the product then pairs rows and entries by
        `zip`. */
    method TrueDiv(arena: Arena, num: Numerics, other: Matrix) returns (r: Result<Matrix>)
      requires arena.Valid() && In(arena) && other.In(arena)
      modifies arena
      ensures arena.Valid() && Extends(old(arena.data), arena.data)
      ensures r.Err? <==> exists i, j :: 0 <= i < |other.values| && 0 <= j < |other.values[i]| &&
                                          old(arena.data[other.values[i][j]]) == 0.0
      ensures r.Err? ==> r.error == ZeroDivisionError
      ensures r.Ok? ==> fresh(r.value) && r.value.In(arena)
      ensures r.Ok? ==> |r.value.values| == Common.Min(|values|, |other.values|)
      ensures r.Ok? ==> forall i :: 0 <= i < |r.value.values| ==>
                |r.value.values[i]| == Common.Min(|values[i]|, |other.values[i]|)
      ensures r.Ok? ==> forall i, j :: 0 <= i < |r.value.values| && 0 <= j < |r.value.values[i]| ==>
                i < |values| && i < |other.values| && j < |values[i]| && j < |other.values[i]| &&
                arena.data[r.value.values[i][j]] * old(arena.data[other.values[i][j]]) == old(arena.data[values[i][j]])
    {
      ghost var d0 := arena.data;
      var inverse := other.Reciprocals(arena, num);
      if inverse.Err? {
        return Err(ZeroDivisionError);
      }
      ghost var d1 := arena.data;
      assert forall i, j :: 0 <= i < |values| && 0 <= j < |values[i]| ==> d1[values[i][j]] == d0[values[i][j]];
      var product := CombineMatrix(arena, Multiplied, inverse.value);
      QuotientEntries(d0, d1, arena.data, values, other.values, inverse.value.values, product.values);
      r := Ok(product);
    }

    /** `x / self` for a number `x`: a matrix of fresh leaves holding `x`,
        as many rows as `self` and as long as its first row, divided by
        `self`. With no rows `dims()` raises IndexError. */
    method RTrueDiv(arena: Arena, num: Numerics, x: real) returns (r: Result<Matrix>)
      requires arena.Valid() && In(arena)
      modifies arena
      ensures arena.Valid() && Extends(old(arena.data), arena.data)
      ensures r.Err? <==> |values| == 0 || exists i, j :: 0 <= i < |values| && 0 <= j < |values[i]| &&
                                                         old(arena.data[values[i][j]]) == 0.0
      ensures r.Err? ==> r.error == if |values| == 0 then IndexError else ZeroDivisionError
      ensures r.Ok? ==> fresh(r.value) && r.value.In(arena) && |r.value.values| == |values|
      ensures r.Ok? ==> forall i :: 0 <= i < |values| ==>
                |r.value.values[i]| == Common.Min(|values[0]|, |values[i]|)
      ensures r.Ok? ==> forall i, j :: 0 <= i < |r.value.values| && 0 <= j < |r.value.values[i]| ==>
                i < |values| && j < |values[i]| &&
                arena.data[r.value.values[i][j]] * old(arena.data[values[i][j]]) == x
    {
      if |values| == 0 {
        return Err(IndexError);
      }
      ghost var d0 := arena.data;
      var filled := new Matrix(arena, Repeat(Repeat(Number(x), |values[0]|), |values|));
      assert forall i, j :: 0 <= i < |values| && 0 <= j < |values[i]| ==> arena.data[values[i][j]] == d0[values[i][j]];
      r := filled.TrueDiv(arena, num, this);
    }

    /** The inner loop of `max(num)` for row `i`: each of its entries is
        replaced by a new node holding the larger of its `data` and `num`;
        the other rows are untouched. */
    method MaxRow(arena: Arena, c: real, i: nat, ghost d0: seq<real>, ghost v0: seq<seq<NodeId>>)
      requires arena.Valid() && In(arena) && Extends(d0, arena.data) && RowsWithin(d0, v0)
      requires i < |values| == |v0| && values[i] == v0[i]
      modifies this, arena
      ensures arena.Valid() && Extends(old(arena.data), arena.data) && In(arena)
      ensures old(arena.rules) <= arena.rules
      ensures |values| == |v0| && |values[i]| == |v0[i]|
      ensures forall k :: 0 <= k < |values| && k != i ==> values[k] == old(values[k])
      ensures forall l :: 0 <= l < |v0[i]| ==> MaxEntry(arena.data, arena.rules, d0, c, v0[i][l], values[i][l])
    {
      ghost var values0 := values;
      ghost var d1 := arena.data;
      ghost var r1 := arena.rules;
      var j := 0;
      while j < |values[i]|
        invariant |values| == |v0| && 0 <= j <= |values[i]| == |v0[i]|
        invariant arena.Valid() && Extends(d1, arena.data) && Extends(d0, arena.data) && In(arena)
        invariant r1 <= arena.rules
        invariant forall k :: 0 <= k < |values| && k != i ==> values[k] == values0[k]
        invariant forall l :: j <= l < |v0[i]| ==> values[i][l] == v0[i][l]
        invariant forall l :: 0 <= l < j ==> MaxEntry(arena.data, arena.rules, d0, c, v0[i][l], values[i][l])
      {
        assert v0[i][j] < |d0|;
        ghost var before := arena.rules;
        var m := arena.Max(values[i][j], c);
        assert before <= arena.rules;
        values := values[i := values[i][j := m]];
        j := j + 1;
      }
    }

    /** `max(num)`: every entry is replaced, in place, by a new node holding
        the larger of its `data` and `num`, and the receiver itself is
        returned. */
    method Max(arena: Arena, c: real) returns (r: Matrix)
      requires arena.Valid() && In(arena)
      modifies this, arena
      ensures r == this && arena.Valid() && Extends(old(arena.data), arena.data) && In(arena)
      ensures |values| == old(|values|) && forall i :: 0 <= i < |values| ==> |values[i]| == old(|values[i]|)
      ensures forall i, j :: 0 <= i < |values| && 0 <= j < |values[i]| ==>
                arena.data[values[i][j]] == (if old(arena.data[values[i][j]]) >= c then old(arena.data[values[i][j]]) else c) &&
                arena.rules[values[i][j]] == Applied(Op.Max, [Ref(old(values[i][j])), Const(c)])
    {
      ghost var d0 := arena.data;
      ghost var v0 := values;
      var i := 0;
      while i < |values|
        invariant 0 <= i <= |values| == |v0|
        invariant arena.Valid() && Extends(d0, arena.data) && In(arena)
        invariant forall k :: 0 <= k < |v0| ==> |values[k]| == |v0[k]|
        invariant forall k :: i <= k < |v0| ==> values[k] == v0[k]
        invariant forall k, j :: 0 <= k < i && 0 <= j < |v0[k]| ==> MaxEntry(arena.data, arena.rules, d0, c, v0[k][j], values[k][j])
      {
        ghost var d1, r1 := arena.data, arena.rules;
        MaxRow(arena, c, i, d0, v0);
        assert forall k, j :: 0 <= k < i && 0 <= j < |v0[k]| ==> MaxEntry(d1, r1, d0, c, v0[k][j], values[k][j]);
        i := i + 1;
      }
      r := this;
    }

    /** `zero_grad()`: the gradient of every entry becomes 0; nothing else
        changes. */
    method ZeroGrad(arena: Arena)
      requires arena.Valid() && In(arena)
      modifies arena
      ensures arena.Valid() && arena.data == old(arena.data) && arena.rules == old(arena.rules)
      ensures |arena.grad| == old(|arena.grad|)
      ensures forall k :: 0 <= k < |arena.grad| ==>
                arena.grad[k] == if k in Flatten(values) then 0.0 else old(arena.grad[k])
    {
      var i := 0;
      while i < |values|
        invariant 0 <= i <= |values|
        invariant arena.Valid() && arena.data == old(arena.data) && arena.rules == old(arena.rules) && In(arena)
        invariant |arena.grad| == old(|arena.grad|)
        invariant forall k :: 0 <= k < |arena.grad| ==>
                    arena.grad[k] == if k in Flatten(values[..i]) then 0.0 else old(arena.grad[k])
      {
        assert values[..i + 1][..i] == values[..i];
        ZeroGrads(arena, values[i]);
        i := i + 1;
      }
      assert values[..i] == values;
    }

    /** `all_values()`: the entries row by row. */
    method AllValues() returns (r: seq<NodeId>)
      ensures r == Flatten(values)
    {
      r := [];
      var i := 0;
      while i < |values|
        invariant 0 <= i <= |values| && r == Flatten(values[..i])
      {
        var j := 0;
        while j < |values[i]|
          invariant 0 <= j <= |values[i]| && r == Flatten(values[..i]) + values[i][..j]
        {
          assert values[i][..j + 1] == values[i][..j] + [values[i][j]];
          r := r + [values[i][j]];
          j := j + 1;
        }
        assert values[..i + 1][..i] == values[..i];
        assert values[i][..j] == values[i];
        i := i + 1;
      }
      assert values[..i] == values;
    }

    /** `row(key)`: the row at a Python index, negative keys counting from
        the end; outside the rows IndexError. */
    function Row(key: int): (r: Result<Vector>)
      reads this
      ensures r.Ok? <==> -|values| <= key < |values|
      ensures r.Err? ==> r.error == IndexError
      ensures r.Ok? && key >= 0 ==> r.value.values == values[key]
      ensures r.Ok? && key < 0 ==> r.value.values == values[|values| + key]
    {
      match PyIndex(|values|, key)
      case None => Err(IndexError)
      case Some(k) => Ok(Vector(values[k]))
    }

    /** `col(key)`: entry `key` of every row, a Python index into each row;
        IndexError as soon as one row is too short for it. */
    method Col(key: int) returns (r: Result<Vector>)
      ensures r.Ok? <==> forall i :: 0 <= i < |values| ==> -|values[i]| <= key < |values[i]|
      ensures r.Err? ==> r.error == IndexError
      ensures r.Ok? ==> |r.value.values| == |values|
      ensures r.Ok? ==> forall i :: 0 <= i < |values| ==>
                r.value.values[i] == values[i][if key >= 0 then key else |values[i]| + key]
    {
      var column := [];
      var i := 0;
      while i < |values|
        invariant 0 <= i <= |values| && |column| == i
        invariant forall k :: 0 <= k < i ==> -|values[k]| <= key < |values[k]|
        invariant forall k :: 0 <= k < i ==> column[k] == values[k][if key >= 0 then key else |values[k]| + key]
      {
        match PyIndex(|values[i]|, key)
        case None =>
          return Err(IndexError);
        case Some(k) =>
          column := column + [values[i][k]];
        i := i + 1;
      }
      r := Ok(Vector(column));
    }

    /** `row_sum()`: a one-column matrix whose row `i` holds the sum of row
        `i`; an empty row sums to 0, which the constructor makes a leaf. */
    method RowSum(arena: Arena) returns (r: Matrix)
      requires arena.Valid() && In(arena)
      modifies arena
      ensures arena.Valid() && Extends(old(arena.data), arena.data) && fresh(r) && r.In(arena)
      ensures |r.values| == |values| && forall i :: 0 <= i < |values| ==> |r.values[i]| == 1
      ensures forall i :: 0 <= i < |values| ==>
                arena.data[r.values[i][0]] == Sum(Data(old(arena.data), values[i]))
    {
      ghost var d0 := arena.data;
      var result := [];
      var i := 0;
      while i < |values|
        invariant 0 <= i <= |values| && |result| == i
        invariant arena.Valid() && Extends(d0, arena.data) && In(arena) && RowsWithin(arena.data, result)
        invariant forall k :: 0 <= k < i ==> |result[k]| == 1
        invariant forall k :: 0 <= k < i ==> arena.data[result[k][0]] == Sum(Data(d0, values[k]))
      {
        DataExtends(d0, arena.data, values[i]);
        var s := SumNodes(arena, values[i]);
        var b := arena.Promote(s);
        result := result + [[b]];
        i := i + 1;
      }
      r := new Matrix.Of(result);
    }

    /** `col_sum()`: a Vector as long as the first row whose entry `k` sums
        column `k`. With no rows `dims()` raises IndexError, and so does a
        row shorter than the first. */
    method ColSum(arena: Arena) returns (r: Result<Vector>)
      requires arena.Valid() && In(arena)
      modifies arena
      ensures arena.Valid() && Extends(old(arena.data), arena.data)
      ensures r.Err? <==> |values| == 0 || exists i :: 0 <= i < |values| && |values[i]| < |values[0]|
      ensures r.Err? ==> r.error == IndexError
      ensures r.Ok? ==> |r.value.values| == |values[0]| && Within(arena.data, r.value.values)
      ensures r.Ok? ==> forall k :: 0 <= k < |values[0]| ==>
                arena.data[r.value.values[k]] == Sum(ColumnData(old(arena.data), values, k))
    {
      if |values| == 0 {
        return Err(IndexError);
      }
      var cols := |values[0]|;
      var i := 0;
      while i < |values|
        invariant 0 <= i <= |values| && forall k :: 0 <= k < i ==> |values[k]| >= cols
      {
        if |values[i]| < cols {
          return Err(IndexError);
        }
        i := i + 1;
      }
      ghost var d0 := arena.data;
      var sums := [];
      var k := 0;
      while k < cols
        invariant 0 <= k <= cols && |sums| == k
        invariant arena.Valid() && Extends(d0, arena.data) && In(arena) && Within(arena.data, sums)
        invariant forall l :: 0 <= l < k ==> arena.data[sums[l]] == Sum(ColumnData(d0, values, l))
      {
        var column := Column(k);
        assert Data(arena.data, column) == ColumnData(d0, values, k);
        var s := SumNodes(arena, column);
        sums := sums + [s.id];
        k := k + 1;
      }
      r := Ok(Vector(sums));
    }

    /** `[r[k] for r in values]` when every row has an entry `k`. */
    method Column(k: nat) returns (column: seq<NodeId>)
      requires forall i :: 0 <= i < |values| ==> k < |values[i]|
      ensures |column| == |values| && forall i :: 0 <= i < |values| ==> column[i] == values[i][k]
    {
      column := [];
      var i := 0;
      while i < |values|
        invariant 0 <= i <= |values| && |column| == i
        invariant forall l :: 0 <= l < i ==> column[l] == values[l][k]
      {
        column := column + [values[i][k]];
        i := i + 1;
      }
    }

    /** `broadcast(n)`: every row repeated `n` times end to end (`row * n`,
        empty for `n <= 0`); the nodes are shared, not copied. */
    method Broadcast(n: int) returns (r: Matrix)
      ensures fresh(r) && |r.values| == |values|
      ensures n <= 0 ==> forall i :: 0 <= i < |values| ==> r.values[i] == []
      ensures n > 0 ==> forall i :: 0 <= i < |values| ==> |r.values[i]| == |values[i]| * n
      ensures n > 0 ==> forall i :: 0 <= i < |values| ==> r.values[i][..|values[i]|] == values[i]
      ensures forall i, k :: 0 <= i < |values| && |values[i]| <= k < |r.values[i]| ==>
                r.values[i][k] == r.values[i][k - |values[i]|]
    {
      var times: nat := if n > 0 then n else 0;
      var result := [];
      var i := 0;
      while i < |values|
        invariant 0 <= i <= |values| && |result| == i
        invariant forall l :: 0 <= l < i ==> result[l] == Repeated(values[l], times)
      {
        result := result + [Repeated(values[i], times)];
        i := i + 1;
      }
      r := new Matrix.Of(result);
    }

    /** `matmul(other)`: `dims()` of either operand raises IndexError when
        it has no rows; mismatched inner dimensions fail the assertion; a
        row of `other` shorter than its first raises IndexError while its
        columns are read. Otherwise entry `(i, j)` is the sum over `zip` of
        row `i` and column `j` of `other`, an empty sum becoming a leaf
        holding 0. */
    method MatMul(arena: Arena, other: Matrix) returns (r: Result<Matrix>)
      requires arena.Valid() && In(arena) && other.In(arena)
      modifies arena
      ensures arena.Valid() && Extends(old(arena.data), arena.data)
      ensures |values| == 0 || |other.values| == 0 ==> r == Err(IndexError)
      ensures |values| > 0 && |other.values| > 0 && |values[0]| != |other.values| ==> r == Err(AssertionError)
      ensures |values| > 0 && |other.values| > 0 && |values[0]| == |other.values| ==>
                (r.Err? <==> exists i :: 0 <= i < |other.values| && |other.values[i]| < |other.values[0]|)
      ensures r.Ok? ==> fresh(r.value) && r.value.In(arena) && |other.values| > 0
      ensures r.Ok? ==> |r.value.values| == |values|
      ensures r.Ok? ==> forall i :: 0 <= i < |values| ==> |r.value.values[i]| == |other.values[0]|
      ensures r.Ok? ==> forall i, j :: 0 <= i < |r.value.values| && 0 <= j < |r.value.values[i]| ==>
                i < |values| && j < |other.values[0]| &&
                arena.data[r.value.values[i][j]] ==
                Sum(Products(Data(old(arena.data), values[i]), ColumnData(old(arena.data), other.values, j)))
    {
      if |values| == 0 || |other.values| == 0 {
        return Err(IndexError);
      }
      if |values[0]| != |other.values| {
        return Err(AssertionError);
      }
      var cols := |other.values[0]|;
      var k := 0;
      while k < |other.values|
        invariant 0 <= k <= |other.values| && forall l :: 0 <= l < k ==> |other.values[l]| >= cols
      {
        if |other.values[k]| < cols {
          return Err(IndexError);
        }
        k := k + 1;
      }
      var result := ProductRows(arena, values, other);
      var m := new Matrix.Of(result);
      r := Ok(m);
    }

    /** `backward()`: `backward()` on every entry, row by row, stopping at
        the first that raises. */
    method Backward(arena: Arena, num: Numerics) returns (raised: Option<Error>)
      requires arena.Valid() && In(arena)
      modifies arena
      ensures arena.Valid() && arena.data == old(arena.data) && arena.rules == old(arena.rules)
      ensures Within(arena.data, Flatten(values))
      ensures raised.None? <==> BackwardEach(arena.Snapshot(num), Flatten(values), old(arena.grad)).raised.None?
      ensures raised.None? ==> arena.grad == BackwardEach(arena.Snapshot(num), Flatten(values), old(arena.grad)).grad
    {
      var all := AllValues();
      FlattenWithin(arena.data, values);
      raised := BackwardAll(arena, num, all);
    }
  }

  /** Entry by entry, a product with the reciprocals of `b` multiplied
      back by `b` gives `a`: the step from `self * other ** -1` to a quotient. */
  lemma QuotientEntries(d0: seq<real>, d1: seq<real>, d2: seq<real>,
                        a: seq<seq<NodeId>>, b: seq<seq<NodeId>>, inv: seq<seq<NodeId>>, p: seq<seq<NodeId>>)
    requires |d0| <= |d1| && RowsWithin(d0, a) && RowsWithin(d0, b) && RowsWithin(d1, inv) && RowsWithin(d2, p)
    requires |inv| == |b| && forall i :: 0 <= i < |b| ==> |inv[i]| == |b[i]|
    requires forall i, j :: 0 <= i < |b| && 0 <= j < |b[i]| ==> d1[inv[i][j]] * d0[b[i][j]] == 1.0
    requires forall i, j :: 0 <= i < |p| && 0 <= j < |p[i]| ==>
               i < |a| && i < |inv| && j < |a[i]| && j < |inv[i]| &&
               d2[p[i][j]] == Combined(Multiplied, d1[a[i][j]], d1[inv[i][j]])
    requires forall i, j :: 0 <= i < |a| && 0 <= j < |a[i]| ==> d1[a[i][j]] == d0[a[i][j]]
    ensures forall i, j :: 0 <= i < |p| && 0 <= j < |p[i]| ==> d2[p[i][j]] * d0[b[i][j]] == d0[a[i][j]]
  {
    forall i, j | 0 <= i < |p| && 0 <= j < |p[i]|
      ensures d2[p[i][j]] * d0[b[i][j]] == d0[a[i][j]]
    {
      assert d2[p[i][j]] == Combined(Multiplied, d1[a[i][j]], d1[inv[i][j]]);
      ProductWithInverse(d0[a[i][j]], d1[inv[i][j]], d0[b[i][j]]);
    }
  }

/** Node `m` was made by `a.max(c)` from node `a`, whose data was `d0[a]`. */
  ghost predicate MaxEntry(d: seq<real>, rules: seq<Rule>, d0: seq<real>, c: real, a: NodeId, m: NodeId)
  {
    a < |d0| && m < |d| && m < |rules| &&
    d[m] == (if d0[a] >= c then d0[a] else c) &&
    rules[m] == Applied(Op.Max, [Ref(a), Const(c)])
  }

  lemma FlattenWithin(d: seq<real>, m: seq<seq<NodeId>>)
    requires RowsWithin(d, m)
    ensures Within(d, Flatten(m))
  {
    var all := Flatten(m);
    forall i | 0 <= i < |all|
      ensures all[i] < |d|
    {
      FlattenHas(m, all[i]);
    }
  }

  lemma Inverse(num: Numerics, y: real)
    requires y != 0.0
    ensures Mapped(num, Raised(-1.0), y).Ok? && Mapped(num, Raised(-1.0), y).value * y == 1.0
  {
    assert (-(-1.0)).Floor == 1;
    assert Power(y, 1) == y by {
      assert Power(y, 1) == Power(y, 0) * y;
    }
  }

  lemma ProductWithInverse(x: real, inv: real, y: real)
    requires inv * y == 1.0
    ensures Combined(Multiplied, x, inv) * y == x
  {
    calc {
      Combined(Multiplied, x, inv) * y;
      (x * inv) * y;
      x * (inv * y);
      x;
    }
  }

  /** Entry `j` of one row of a matrix product: the sum over
      `zip(row, column j)` of the products, made a node. */
  method ProductEntry(arena: Arena, row: seq<NodeId>, other: Matrix, j: nat, ghost d0: seq<real>) returns (b: NodeId)
    requires arena.Valid() && Extends(d0, arena.data) && RowsWithin(d0, other.values) && Within(d0, row)
    requires other.In(arena) && |other.values| > 0 && j < |other.values[0]|
    requires forall l :: 0 <= l < |other.values| ==> |other.values[l]| >= |other.values[0]|
    modifies arena
    ensures arena.Valid() && Extends(old(arena.data), arena.data) && b < |arena.data|
    ensures arena.data[b] == Sum(Products(Data(d0, row), ColumnData(d0, other.values, j)))
  {
    var column := other.Column(j);
    ghost var d1 := arena.data;
    ColumnDataExtends(d0, d1, other.values, |other.values[0]|);
    assert Data(d1, column) == ColumnData(d0, other.values, j);
    DataExtends(d0, d1, row);
    var products := Zip(arena, Multiplied, row, column);
    assert Data(arena.data, products) == Products(Data(d0, row), ColumnData(d0, other.values, j));
    var s := SumNodes(arena, products);
    b := arena.Promote(s);
  }

  /** One row of a matrix product: for every column `j` of `other`, the sum
      over `zip(row, column j)` of the products, made a node. */
  method ProductRow(arena: Arena, row: seq<NodeId>, other: Matrix) returns (r: seq<NodeId>)
    requires arena.Valid() && Within(arena.data, row) && other.In(arena) && |other.values| > 0
    requires forall l :: 0 <= l < |other.values| ==> |other.values[l]| >= |other.values[0]|
    modifies arena
    ensures arena.Valid() && Extends(old(arena.data), arena.data) && Within(arena.data, r)
    ensures |r| == |other.values[0]|
    ensures forall j :: 0 <= j < |r| ==>
              arena.data[r[j]] == Sum(Products(Data(old(arena.data), row), ColumnData(old(arena.data), other.values, j)))
  {
    ghost var d0 := arena.data;
    r := [];
    var j := 0;
    while j < |other.values[0]|
      invariant 0 <= j <= |other.values[0]| && |r| == j
      invariant arena.Valid() && Extends(d0, arena.data) && Within(arena.data, r)
      invariant other.In(arena)
      invariant RowProducts(arena.data, r, d0, row, other.values)
    {
      ghost var d1 := arena.data;
      var b := ProductEntry(arena, row, other, j, d0);
      RowProductsStep(d1, arena.data, r, b, d0, row, other.values);
      r := r + [b];
      j := j + 1;
    }
  }

  /** Entry `l` of `r` holds the product of `row` with column `l`, as `d0` had them. */
  ghost predicate RowProducts(d: seq<real>, r: seq<NodeId>, d0: seq<real>, row: seq<NodeId>, m: seq<seq<NodeId>>)
  {
    Within(d, r) && Within(d0, row) && RowsWithin(d0, m) && |m| > 0 && |r| <= |m[0]| &&
    (forall l :: 0 <= l < |m| ==> |m[l]| >= |m[0]|) &&
    forall l :: 0 <= l < |r| ==> d[r[l]] == Sum(Products(Data(d0, row), ColumnData(d0, m, l)))
  }

  lemma RowProductsStep(d1: seq<real>, d2: seq<real>, r: seq<NodeId>, b: NodeId,
                        d0: seq<real>, row: seq<NodeId>, m: seq<seq<NodeId>>)
    requires RowProducts(d1, r, d0, row, m) && Extends(d1, d2) && |r| < |m[0]| && b < |d2|
    requires d2[b] == Sum(Products(Data(d0, row), ColumnData(d0, m, |r|)))
    ensures RowProducts(d2, r + [b], d0, row, m)
  {
    forall l | 0 <= l < |r| + 1
      ensures (r + [b])[l] < |d2| && d2[(r + [b])[l]] == Sum(Products(Data(d0, row), ColumnData(d0, m, l)))
    {
      if l < |r| {
        assert (r + [b])[l] == r[l];
      }
    }
  }

  /** Every row of a matrix product, one `ProductRow` per row of `m`. */
  method ProductRows(arena: Arena, m: seq<seq<NodeId>>, other: Matrix) returns (r: seq<seq<NodeId>>)
    requires arena.Valid() && RowsWithin(arena.data, m) && other.In(arena) && |other.values| > 0
    requires forall l :: 0 <= l < |other.values| ==> |other.values[l]| >= |other.values[0]|
    modifies arena
    ensures arena.Valid() && Extends(old(arena.data), arena.data) && RowsWithin(arena.data, r)
    ensures |r| == |m| && forall i :: 0 <= i < |m| ==> |r[i]| == |other.values[0]|
    ensures forall i, j :: 0 <= i < |r| && 0 <= j < |r[i]| ==>
              arena.data[r[i][j]] == Sum(Products(Data(old(arena.data), m[i]), ColumnData(old(arena.data), other.values, j)))
  {
    ghost var d0 := arena.data;
    r := [];
    var i := 0;
    while i < |m|
      invariant 0 <= i <= |m| && |r| == i
      invariant arena.Valid() && Extends(d0, arena.data) && RowsWithin(arena.data, m) && other.In(arena)
      invariant RowsWithin(arena.data, r)
      invariant forall l :: 0 <= l < i ==> |r[l]| == |other.values[0]|
      invariant forall l, j :: 0 <= l < i && 0 <= j < |r[l]| ==>
                  arena.data[r[l][j]] == Sum(Products(Data(d0, m[l]), ColumnData(d0, other.values, j)))
    {
      ghost var d1 := arena.data;
      var row := ProductRow(arena, m[i], other);
      DataExtends(d0, d1, m[i]);
      ColumnDataExtends(d0, d1, other.values, |other.values[0]|);
      r := r + [row];
      i := i + 1;
    }
  }

  lemma ColumnDataExtends(d0: seq<real>, d1: seq<real>, m: seq<seq<NodeId>>, n: nat)
    requires Extends(d0, d1) && RowsWithin(d0, m) && forall i :: 0 <= i < |m| ==> n <= |m[i]|
    ensures RowsWithin(d1, m)
    ensures forall k :: 0 <= k < n ==> ColumnData(d1, m, k) == ColumnData(d0, m, k)
  {
  }

  /** The outcome of `BackwardEach` on a non-empty list, one call unfolded. */
  lemma BackwardEachStep(g: Graph, vs: seq<NodeId>, grad: seq<real>)
    requires Valid(g) && |grad| == |g.rules| && vs != [] && forall i :: 0 <= i < |vs| ==> vs[i] < |g.rules|
    ensures |BackwardSpec(g, vs[0], grad).grad| == |grad|
    ensures BackwardSpec(g, vs[0], grad).raised.Some? ==> BackwardEach(g, vs, grad) == BackwardSpec(g, vs[0], grad)
    ensures BackwardSpec(g, vs[0], grad).raised.None? ==>
              BackwardEach(g, vs, grad) == BackwardEach(g, vs[1..], BackwardSpec(g, vs[0], grad).grad)
  {
    PropagateLength(g, Descending(Descendants(g, vs[0]), |g.rules|), grad);
  }

  /** `backward()` on the first listed node: either it raises, and so does
      the whole sequence of calls, or the rest of the calls start from the
      gradients it leaves. */
  method BackwardFirst(arena: Arena, num: Numerics, vs: seq<NodeId>, ghost g: Graph) returns (raised: Option<Error>)
    requires arena.Valid() && Within(arena.data, vs) && vs != [] && arena.Snapshot(num) == g
    modifies arena
    ensures arena.Valid() && arena.data == old(arena.data) && arena.rules == old(arena.rules)
    ensures arena.Snapshot(num) == g && |arena.grad| == |g.rules|
    ensures raised.Some? ==> BackwardEach(g, vs, old(arena.grad)).raised.Some?
    ensures raised.None? ==> BackwardEach(g, vs, old(arena.grad)) == BackwardEach(g, vs[1..], arena.grad)
  {
    ghost var before := arena.grad;
    BackwardEachStep(g, vs, before);
    BackwardSpecRaises(g, vs[0], before);
    var order;
    raised, order := ValueEngine.Backward(arena, num, vs[0]);
  }

  /** `backward()` on each listed node in turn, stopping at the first that
      raises. */
  method BackwardAll(arena: Arena, num: Numerics, vs: seq<NodeId>) returns (raised: Option<Error>)
    requires arena.Valid() && Within(arena.data, vs)
    modifies arena
    ensures arena.Valid() && arena.data == old(arena.data) && arena.rules == old(arena.rules)
    ensures raised.None? <==> BackwardEach(arena.Snapshot(num), vs, old(arena.grad)).raised.None?
    ensures raised.None? ==> arena.grad == BackwardEach(arena.Snapshot(num), vs, old(arena.grad)).grad
  {
    ghost var g := arena.Snapshot(num);
    var i := 0;
    while i < |vs|
      invariant 0 <= i <= |vs|
      invariant arena.Valid() && arena.data == old(arena.data) && arena.rules == old(arena.rules)
      invariant arena.Snapshot(num) == g && |arena.grad| == |g.rules|
      invariant BackwardEach(g, vs[i..], arena.grad) == BackwardEach(g, vs, old(arena.grad))
    {
      var r := BackwardFirst(arena, num, vs[i..], g);
      assert vs[i..][1..] == vs[i + 1..];
      if r.Some? {
        return r;
      }
      i := i + 1;
    }
    return None;
  }
}
