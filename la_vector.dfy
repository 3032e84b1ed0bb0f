/** The `Vector` of lib/linear_algebra.py and the list-of-nodes building
    blocks its `Matrix` shares: wrapping plain numbers as leaves, the
    `zip`-truncating elementwise operators, elementwise maps, Python's `sum`
    over nodes, `mean`, `var`, `std`, `dotprod` and `zero_grad`. Every
    operator adds nodes to the arena, so each is a method on it; what it
    promises is the shape of the result and the `data` of each entry, in
    terms of the `data` of the operands before the call. */
module LinearAlgebra {
  import opened Common
  import opened Calculus
  import opened Backprop
  import opened Nodes
  import ValueEngine

  // ---------------------------------------------------------------------------
  // Lists of nodes and what they hold

  /** Every entry of `xs` names a node of an arena holding `d`. */
  predicate Within(d: seq<real>, xs: seq<NodeId>)
  {
    forall i :: 0 <= i < |xs| ==> xs[i] < |d|
  }

  /** `d1` is `d0` with possibly more nodes after it: building containers
      only ever appends nodes. */
  predicate Extends(d0: seq<real>, d1: seq<real>)
  {
    |d0| <= |d1| && forall k :: 0 <= k < |d0| ==> d1[k] == d0[k]
  }

  lemma ExtendsTransitive(d0: seq<real>, d1: seq<real>, d2: seq<real>)
    requires Extends(d0, d1) && Extends(d1, d2)
    ensures Extends(d0, d2)
  {
  }

  /** The `data` of the listed nodes. */
  function Data(d: seq<real>, xs: seq<NodeId>): (r: seq<real>)
    requires Within(d, xs)
    ensures |r| == |xs| && forall i :: 0 <= i < |xs| ==> r[i] == d[xs[i]]
  {
    seq(|xs|, i requires 0 <= i < |xs| => d[xs[i]])
  }

  /** Adding nodes does not change what existing nodes hold. */
  lemma DataExtends(d0: seq<real>, d1: seq<real>, xs: seq<NodeId>)
    requires Within(d0, xs) && Extends(d0, d1)
    ensures Within(d1, xs) && Data(d1, xs) == Data(d0, xs)
  {
  }

  lemma DataAppend(d: seq<real>, xs: seq<NodeId>, x: NodeId)
    requires Within(d, xs) && x < |d|
    ensures Within(d, xs + [x]) && Data(d, xs + [x]) == Data(d, xs) + [d[x]]
  {
  }

  // ---------------------------------------------------------------------------
  // Construction

  /** `[v if isinstance(v, Value) else Value(v) for v in values]`: nodes are
      kept by identity, plain numbers become fresh leaves. */
  method Wrap(arena: Arena, xs: seq<Arg>) returns (r: seq<NodeId>)
    requires arena.Valid() && forall i :: 0 <= i < |xs| ==> arena.ArgIn(xs[i])
    modifies arena
    ensures arena.Valid() && Extends(old(arena.data), arena.data)
    ensures |r| == |xs| && Within(arena.data, r)
    ensures forall i :: 0 <= i < |xs| ==> arena.data[r[i]] == old(arena.ArgData(xs[i]))
    ensures forall i :: 0 <= i < |xs| && xs[i].Node? ==> r[i] == xs[i].id
    ensures forall i :: 0 <= i < |xs| && xs[i].Number? ==> old(|arena.data|) <= r[i] && arena.rules[r[i]] == Rule.Leaf
  {
    ghost var d0 := arena.data;
    ghost var n0 := |arena.data|;
    r := [];
    var i := 0;
    while i < |xs|
      invariant 0 <= i <= |xs| && |r| == i
      invariant arena.Valid() && Extends(d0, arena.data) && Within(arena.data, r)
      invariant forall k :: 0 <= k < |xs| ==> arena.ArgIn(xs[k]) && old(arena.ArgData(xs[k])) == arena.ArgData(xs[k])
      invariant forall k :: 0 <= k < i ==> arena.data[r[k]] == old(arena.ArgData(xs[k]))
      invariant forall k :: 0 <= k < i && xs[k].Node? ==> r[k] == xs[k].id
      invariant forall k :: 0 <= k < i && xs[k].Number? ==> n0 <= r[k] < |arena.rules| && arena.rules[r[k]] == Rule.Leaf
    {
      ghost var rules0 := arena.rules;
      var b := arena.Promote(xs[i]);
      assert rules0 <= arena.rules;
      r := r + [b];
      i := i + 1;
    }
  }

  // ---------------------------------------------------------------------------
  // Elementwise operators

  /** The two binary operators the containers apply entry by entry. */
  datatype Combine = Added | Multiplied

  /** The `data` of `a <op> b` for nodes holding `x` and `y`. */
  function Combined(op: Combine, x: real, y: real): real
  {
    match op
    case Added => x + y
    case Multiplied => Times(x, y)
  }

  /** `a + b` or `a * b` for two nodes. */
  method Apply(arena: Arena, op: Combine, a: NodeId, b: NodeId) returns (r: NodeId)
    requires arena.Valid() && a < |arena.data| && b < |arena.data|
    modifies arena
    ensures arena.Valid() && r == old(|arena.data|)
    ensures arena.data == old(arena.data) + [Combined(op, old(arena.data[a]), old(arena.data[b]))]
  {
    match op
    case Added => r := arena.Add(a, b);
    case Multiplied => r := arena.Mul(a, b);
  }

  /** `[sv <op> ov for sv, ov in zip(xs, ys)]`: `zip` stops at the shorter
      list, so the result is as long as the shorter operand and no error is
      raised for unequal lengths. */
  method Zip(arena: Arena, op: Combine, xs: seq<NodeId>, ys: seq<NodeId>) returns (r: seq<NodeId>)
    requires arena.Valid() && Within(arena.data, xs) && Within(arena.data, ys)
    modifies arena
    ensures arena.Valid() && Extends(old(arena.data), arena.data) && Within(arena.data, r)
    ensures |r| == Common.Min(|xs|, |ys|)
    ensures forall i :: 0 <= i < |r| ==>
              arena.data[r[i]] == Combined(op, old(arena.data[xs[i]]), old(arena.data[ys[i]]))
  {
    ghost var d0 := arena.data;
    r := [];
    var i := 0;
    while i < |xs| && i < |ys|
      invariant 0 <= i <= Common.Min(|xs|, |ys|) && |r| == i
      invariant arena.Valid() && Extends(d0, arena.data) && Within(arena.data, r)
      invariant forall k :: 0 <= k < i ==> arena.data[r[k]] == Combined(op, d0[xs[k]], d0[ys[k]])
    {
      var c := Apply(arena, op, xs[i], ys[i]);
      r := r + [c];
      i := i + 1;
    }
  }

  /** The unary operators applied entry by entry: `-v`, `v ** p`, `exp`, `ln`. */
  datatype Unary = Negated | Raised(p: real) | Exponentiated | Logged

  /** The `data` of the operator applied to a node holding `x`; only a power
      can raise (zero to a negative power). */
  function Mapped(num: Numerics, f: Unary, x: real): (r: Result<real>)
    ensures r.Err? <==> f.Raised? && x == 0.0 && f.p < 0.0
  {
    match f
    case Negated => Ok(-x)
    case Raised(p) => PyPow(num, x, p)
    case Exponentiated => Ok(num.exp(x))
    case Logged => Ok(num.ln(x))
  }

  /** One node through the unary operator. */
  method ApplyOne(arena: Arena, num: Numerics, f: Unary, a: NodeId) returns (r: Result<NodeId>)
    requires arena.Valid() && a < |arena.data|
    modifies arena
    ensures arena.Valid() && Extends(old(arena.data), arena.data)
    ensures r.Err? <==> Mapped(num, f, old(arena.data[a])).Err?
    ensures r.Ok? ==> r.value < |arena.data| && arena.data[r.value] == Mapped(num, f, old(arena.data[a])).value
  {
    match f
    case Negated =>
      var c := arena.Neg(a);
      r := Ok(c);
    case Raised(p) =>
      r := arena.Pow(num, a, p);
    case Exponentiated =>
      var c := arena.Exp(num, a);
      r := Ok(c);
    case Logged =>
      var c := arena.Ln(num, a);
      r := Ok(c);
  }

  /** `[f(v) for v in xs]`: one new node per entry; the first entry that
      raises stops the comprehension. */
  method MapRow(arena: Arena, num: Numerics, f: Unary, xs: seq<NodeId>) returns (r: Result<seq<NodeId>>)
    requires arena.Valid() && Within(arena.data, xs)
    modifies arena
    ensures arena.Valid() && Extends(old(arena.data), arena.data)
    ensures r.Err? <==> exists i :: 0 <= i < |xs| && Mapped(num, f, old(arena.data[xs[i]])).Err?
    ensures !f.Raised? ==> r.Ok?
    ensures r.Ok? ==> |r.value| == |xs| && Within(arena.data, r.value)
    ensures r.Ok? ==> forall i :: 0 <= i < |xs| ==>
              arena.data[r.value[i]] == Mapped(num, f, old(arena.data[xs[i]])).value
  {
    ghost var d0 := arena.data;
    var out := [];
    var i := 0;
    while i < |xs|
      invariant 0 <= i <= |xs| && |out| == i
      invariant arena.Valid() && Extends(d0, arena.data) && Within(arena.data, out)
      invariant forall k :: 0 <= k < i ==> Mapped(num, f, d0[xs[k]]).Ok?
      invariant forall k :: 0 <= k < i ==> arena.data[out[k]] == Mapped(num, f, d0[xs[k]]).value
    {
      var c := ApplyOne(arena, num, f, xs[i]);
      if c.Err? {
        return Err(c.error);
      }
      out := out + [c.value];
      i := i + 1;
    }
    r := Ok(out);
  }

  // ---------------------------------------------------------------------------
  // Sums

  /** Python's `sum` over a list of nodes. It starts from the integer 0:
      `0 + xs[0]` falls back to `xs[0].__radd__(0)`, which adds a leaf
      holding 0, and the rest is added left to right. An empty list sums
      to the plain number 0. */
  method SumNodes(arena: Arena, xs: seq<NodeId>) returns (r: Arg)
    requires arena.Valid() && Within(arena.data, xs)
    modifies arena
    ensures arena.Valid() && Extends(old(arena.data), arena.data) && arena.ArgIn(r)
    ensures xs == [] <==> r.Number?
    ensures xs == [] ==> r == Number(0.0) && arena.data == old(arena.data)
    ensures arena.ArgData(r) == Sum(Data(old(arena.data), xs))
  {
    ghost var d0 := arena.data;
    if xs == [] {
      return Number(0.0);
    }
    var acc: NodeId := ValueEngine.RAdd(arena, xs[0], Number(0.0));
    assert Data(d0, xs[..1]) == [] + [d0[xs[0]]];
    SumAppend([], d0[xs[0]]);
    var i := 1;
    while i < |xs|
      invariant 1 <= i <= |xs| && acc < |arena.data|
      invariant arena.Valid() && Extends(d0, arena.data)
      invariant arena.data[acc] == Sum(Data(d0, xs[..i]))
    {
      assert xs[..i + 1] == xs[..i] + [xs[i]];
      DataAppend(d0, xs[..i], xs[i]);
      SumAppend(Data(d0, xs[..i]), d0[xs[i]]);
      acc := arena.Add(acc, xs[i]);
      i := i + 1;
    }
    assert xs[..i] == xs;
    r := Node(acc);
  }

  // ---------------------------------------------------------------------------
  // Vector

  /** A `Vector`: its list of nodes. The list is never changed in place. */
  datatype Vector = Vector(values: seq<NodeId>)

  /** `Vector.__init__`. */
  method NewVector(arena: Arena, xs: seq<Arg>) returns (v: Vector)
    requires arena.Valid() && forall i :: 0 <= i < |xs| ==> arena.ArgIn(xs[i])
    modifies arena
    ensures arena.Valid() && Extends(old(arena.data), arena.data)
    ensures |v.values| == |xs| && Within(arena.data, v.values)
    ensures forall i :: 0 <= i < |xs| ==> arena.data[v.values[i]] == old(arena.ArgData(xs[i]))
    ensures forall i :: 0 <= i < |xs| && xs[i].Node? ==> v.values[i] == xs[i].id
  {
    var values := Wrap(arena, xs);
    v := Vector(values);
  }

  /** `Vector.__add__` / `Vector.__mul__`: entrywise over `zip`. */
  method VectorCombine(arena: Arena, op: Combine, v: Vector, w: Vector) returns (r: Vector)
    requires arena.Valid() && Within(arena.data, v.values) && Within(arena.data, w.values)
    modifies arena
    ensures arena.Valid() && Extends(old(arena.data), arena.data) && Within(arena.data, r.values)
    ensures |r.values| == Common.Min(|v.values|, |w.values|)
    ensures forall i :: 0 <= i < |r.values| ==>
              arena.data[r.values[i]] == Combined(op, old(arena.data[v.values[i]]), old(arena.data[w.values[i]]))
  {
    var values := Zip(arena, op, v.values, w.values);
    r := Vector(values);
  }

  /** `Vector.__neg__`. */
  method VectorNeg(arena: Arena, num: Numerics, v: Vector) returns (r: Vector)
    requires arena.Valid() && Within(arena.data, v.values)
    modifies arena
    ensures arena.Valid() && Extends(old(arena.data), arena.data) && Within(arena.data, r.values)
    ensures |r.values| == |v.values|
    ensures forall i :: 0 <= i < |v.values| ==> arena.data[r.values[i]] == -old(arena.data[v.values[i]])
  {
    var values := MapRow(arena, num, Negated, v.values);
    r := Vector(values.value);
  }

  /** The arithmetic mean of a non-empty list of reals. */
  function MeanOf(s: seq<real>): real
    requires |s| > 0
  {
    Sum(s) / |s| as real
  }

  /** The squared deviations from `m`. */
  function SquaredDeviations(s: seq<real>, m: real): (r: seq<real>)
    ensures |r| == |s| && forall i :: 0 <= i < |s| ==> r[i] == Times(s[i] - m, s[i] - m)
  {
    seq(|s|, i requires 0 <= i < |s| => Times(s[i] - m, s[i] - m))
  }

  /** The population variance of a non-empty list of reals. */
  function VarianceOf(s: seq<real>): real
    requires |s| > 0
  {
    Sum(SquaredDeviations(s, MeanOf(s))) / |s| as real
  }

  /** `Vector.mean`: `sum(values) / dim()`. An empty vector sums to the
      integer 0, and `0 / 0` raises ZeroDivisionError. */
  method Mean(arena: Arena, num: Numerics, v: Vector) returns (r: Result<NodeId>)
    requires arena.Valid() && Within(arena.data, v.values)
    modifies arena
    ensures arena.Valid() && Extends(old(arena.data), arena.data)
    ensures r.Err? <==> v.values == []
    ensures r.Err? ==> r.error == ZeroDivisionError
    ensures r.Ok? ==> (r.value < |arena.data| &&
              arena.data[r.value] == MeanOf(Data(old(arena.data), v.values)))
  {
    ghost var d0 := arena.data;
    var s := SumNodes(arena, v.values);
    if s.Number? {
      return Err(ZeroDivisionError);
    }
    ghost var d1 := arena.data;
    r := ValueEngine.TrueDiv(arena, num, s.id, Number(|v.values| as real));
    DivideBack(arena.data[r.value], Sum(Data(d0, v.values)), |v.values| as real);
  }

  lemma DivideBack(q: real, s: real, n: real)
    requires n != 0.0 && q * n == s
    ensures q == s / n
  {
  }

  /** `x ** 2` for a node is an exact square. */
  lemma SquareIsTimes(num: Numerics, x: real)
    ensures PyPow(num, x, 2.0) == Ok(Times(x, x))
  {
    assert Power(x, 2) == x * x by {
      assert Power(x, 1) == Power(x, 0) * x;
    }
  }

  /** `[(v - mean) ** 2 for v in values]` for a mean node `m`. */
  method Deviations(arena: Arena, num: Numerics, xs: seq<NodeId>, m: NodeId) returns (r: seq<NodeId>)
    requires arena.Valid() && Within(arena.data, xs) && m < |arena.data|
    modifies arena
    ensures arena.Valid() && Extends(old(arena.data), arena.data) && Within(arena.data, r)
    ensures |r| == |xs|
    ensures Data(arena.data, r) == SquaredDeviations(Data(old(arena.data), xs), old(arena.data[m]))
  {
    ghost var d0 := arena.data;
    r := [];
    var i := 0;
    while i < |xs|
      invariant 0 <= i <= |xs| && |r| == i
      invariant arena.Valid() && Extends(d0, arena.data) && Within(arena.data, r)
      invariant forall k :: 0 <= k < i ==> arena.data[r[k]] == Times(d0[xs[k]] - d0[m], d0[xs[k]] - d0[m])
    {
      var diff := ValueEngine.Sub(arena, xs[i], Node(m));
      SquareIsTimes(num, d0[xs[i]] - d0[m]);
      var sq := arena.Pow(num, diff.value, 2.0);
      r := r + [sq.value];
      i := i + 1;
    }
  }

    /** Division of a node by a positive element count, as `Var` does at its end. */
  method DivideByCount(arena: Arena, num: Numerics, a: NodeId, count: nat) returns (r: Result<NodeId>)
    requires arena.Valid() && a < |arena.data| && count > 0
    modifies arena
    ensures arena.Valid() && Extends(old(arena.data), arena.data)
    ensures r.Ok? && r.value < |arena.data|
    ensures arena.data[r.value] == old(arena.data[a]) / count as real
  {
    ghost var d0 := arena.data;
    var n := count as real;
    assert arena.ArgData(Number(n)) == n;
    r := ValueEngine.TrueDiv(arena, num, a, Number(n));
    DivideBack(arena.data[r.value], d0[a], n);
  }

/** `Vector.var`: the mean of the squared deviations from the mean; an
      empty vector raises ZeroDivisionError in `mean`. */
  method Var(arena: Arena, num: Numerics, v: Vector) returns (r: Result<NodeId>)
    requires arena.Valid() && Within(arena.data, v.values)
    modifies arena
    ensures arena.Valid() && Extends(old(arena.data), arena.data)
    ensures r.Err? <==> v.values == []
    ensures r.Err? ==> r.error == ZeroDivisionError
    ensures r.Ok? ==> (r.value < |arena.data| &&
              arena.data[r.value] == VarianceOf(Data(old(arena.data), v.values)))
  {
    ghost var d0 := arena.data;
    var mean := Mean(arena, num, v);
    if mean.Err? {
      return mean;
    }
    DataExtends(d0, arena.data, v.values);
    ghost var sq := SquaredDeviations(Data(d0, v.values), MeanOf(Data(d0, v.values)));
    var devs := Deviations(arena, num, v.values, mean.value);
    assert Data(arena.data, devs) == sq;
    ghost var d2 := arena.data;
    var s := SumNodes(arena, devs);
    ghost var d3 := arena.data;
    ghost var total := d3[s.id];
    assert total == Sum(sq);
    r := DivideByCount(arena, num, s.id, |v.values|);
    ExtendsTransitive(d0, d2, d3);
    ExtendsTransitive(d0, d3, arena.data);
  }

  /** `Vector.std`: `var() ** (1/2)`, left to the uninterpreted real power. */
  method Std(arena: Arena, num: Numerics, v: Vector) returns (r: Result<NodeId>)
    requires arena.Valid() && Within(arena.data, v.values)
    modifies arena
    ensures arena.Valid() && Extends(old(arena.data), arena.data)
    ensures r.Err? <==> v.values == []
    ensures r.Ok? ==> (r.value < |arena.data| &&
              arena.data[r.value] == num.rpow(VarianceOf(Data(old(arena.data), v.values)), 0.5))
  {
    var variance := Var(arena, num, v);
    if variance.Err? {
      return variance;
    }
    assert 0.5.Floor == 0;
    r := arena.Pow(num, variance.value, 0.5);
  }

  /** Entrywise products over the shorter of two lists of reals. */
  function Products(xs: seq<real>, ys: seq<real>): (r: seq<real>)
    ensures |r| == Common.Min(|xs|, |ys|) && forall i :: 0 <= i < |r| ==> r[i] == Times(xs[i], ys[i])
  {
    seq(Common.Min(|xs|, |ys|), i requires 0 <= i < Common.Min(|xs|, |ys|) => Times(xs[i], ys[i]))
  }

  /** `Vector.dotprod`: `sum(self * other)`, over the shorter of the two;
      when either is empty the result is the plain number 0. */
  method DotProd(arena: Arena, v: Vector, w: Vector) returns (r: Arg)
    requires arena.Valid() && Within(arena.data, v.values) && Within(arena.data, w.values)
    modifies arena
    ensures arena.Valid() && Extends(old(arena.data), arena.data) && arena.ArgIn(r)
    ensures r.Number? <==> v.values == [] || w.values == []
    ensures arena.ArgData(r) == Sum(Products(Data(old(arena.data), v.values), Data(old(arena.data), w.values)))
  {
    ghost var d0 := arena.data;
    var products := VectorCombine(arena, Multiplied, v, w);
    assert Data(arena.data, products.values) == Products(Data(d0, v.values), Data(d0, w.values));
    r := SumNodes(arena, products.values);
  }

  /** `zero_grad` on every listed node: their gradients become 0 and nothing
      else changes. */
  method ZeroGrads(arena: Arena, xs: seq<NodeId>)
    requires arena.Valid() && Within(arena.data, xs)
    modifies arena
    ensures arena.Valid() && arena.data == old(arena.data) && arena.rules == old(arena.rules)
    ensures |arena.grad| == old(|arena.grad|)
    ensures forall k :: 0 <= k < |arena.grad| ==>
              arena.grad[k] == if k in xs then 0.0 else old(arena.grad[k])
  {
    var i := 0;
    while i < |xs|
      invariant 0 <= i <= |xs|
      invariant arena.Valid() && arena.data == old(arena.data) && arena.rules == old(arena.rules)
      invariant |arena.grad| == old(|arena.grad|)
      invariant forall k :: 0 <= k < |arena.grad| ==>
                  arena.grad[k] == if k in xs[..i] then 0.0 else old(arena.grad[k])
    {
      assert xs[..i + 1] == xs[..i] + [xs[i]];
      arena.ZeroGrad(xs[i]);
      i := i + 1;
    }
    assert xs[..i] == xs;
  }

  /** `Vector.zero_grad`. */
  method VectorZeroGrad(arena: Arena, v: Vector)
    requires arena.Valid() && Within(arena.data, v.values)
    modifies arena
    ensures arena.Valid() && arena.data == old(arena.data) && arena.rules == old(arena.rules)
    ensures |arena.grad| == old(|arena.grad|)
    ensures forall k :: 0 <= k < |arena.grad| ==>
              arena.grad[k] == if k in v.values then 0.0 else old(arena.grad[k])
  {
    ZeroGrads(arena, v.values);
  }
}
