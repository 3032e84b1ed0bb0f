/** The nodes of the scalar engines (lib/value.py, lib/fast/value.py) as one
    arena: node `i` is the `Value` whose identity is `i`. The forward
    operators append a node; `_backward` adds to the gradients of a node's
    operands in place. */
module Nodes {
  import opened Common
  import opened Calculus
  import opened Backprop

  /** An operand of a Python operator: a node, or a plain number. */
  datatype Arg = Node(id: NodeId) | Number(x: real)

  class Arena {
    var data: seq<real>
    var grad: seq<real>
    var rules: seq<Rule>

    ghost predicate Valid()
      reads this
    {
      |data| == |grad| == |rules| && Acyclic(rules)
    }

    predicate ArgIn(x: Arg)
      reads this
    {
      x.Node? ==> x.id < |data|
    }

    /** The value of an operand: a node's data, or the number itself. */
    function ArgData(x: Arg): real
      reads this
      requires ArgIn(x)
    {
      if x.Node? then data[x.id] else x.x
    }

    /** What the backward pass reads of the arena. */
    function Snapshot(num: Numerics): (g: Graph)
      reads this
      ensures Valid() ==> Backprop.Valid(g)
    {
      Graph(num, rules, data)
    }

    constructor ()
      ensures Valid() && data == [] && grad == [] && rules == []
    {
      data, grad, rules := [], [], [];
    }

    /** Appends a node made by `rule` with the given data; its gradient
        starts at 0 (the lazily loaded `grad`). */
    method Push(x: real, rule: Rule) returns (r: NodeId)
      requires Valid() && (rule.Applied? ==> RefsBelow(rule.inVars, |rules|))
      modifies this
      ensures Valid() && r == old(|data|)
      ensures data == old(data) + [x] && grad == old(grad) + [0.0] && rules == old(rules) + [rule]
    {
      r := |data|;
      data, grad, rules := data + [x], grad + [0.0], rules + [rule];
    }

    /** `Value(x)`: a leaf. */
    method Leaf(x: real) returns (r: NodeId)
      requires Valid()
      modifies this
      ensures Valid() && r == old(|data|)
      ensures data == old(data) + [x] && grad == old(grad) + [0.0] && rules == old(rules) + [Rule.Leaf]
    {
      r := Push(x, Rule.Leaf);
    }

    /** `Value(other)` when `other` is a number; a node is used as it is. */
    method Promote(x: Arg) returns (b: NodeId)
      requires Valid() && ArgIn(x)
      modifies this
      ensures Valid() && b < |data| && data[b] == old(ArgData(x))
      ensures x.Node? ==> b == x.id && data == old(data) && grad == old(grad) && rules == old(rules)
      ensures x.Number? ==> (b == old(|data|) && data == old(data) + [x.x] &&
                             grad == old(grad) + [0.0] && rules == old(rules) + [Rule.Leaf])
    {
      if x.Number? {
        b := Leaf(x.x);
      } else {
        b := x.id;
      }
    }

    /** `a + b` for two nodes. */
    method Add(a: NodeId, b: NodeId) returns (r: NodeId)
      requires Valid() && a < |data| && b < |data|
      modifies this
      ensures Valid() && r == old(|data|)
      ensures data == old(data) + [old(data[a]) + old(data[b])] && grad == old(grad) + [0.0]
      ensures rules == old(rules) + [Applied(Op.Add, [Ref(a), Ref(b)])]
    {
      r := Push(data[a] + data[b], Applied(Op.Add, [Ref(a), Ref(b)]));
    }

    /** `a * b` for two nodes. */
    method Mul(a: NodeId, b: NodeId) returns (r: NodeId)
      requires Valid() && a < |data| && b < |data|
      modifies this
      ensures Valid() && r == old(|data|)
      ensures data == old(data) + [Times(old(data[a]), old(data[b]))] && grad == old(grad) + [0.0]
      ensures rules == old(rules) + [Applied(Op.Mul, [Ref(a), Ref(b)])]
    {
      r := Push(Times(data[a], data[b]), Applied(Op.Mul, [Ref(a), Ref(b)]));
    }

    /** `-a`. */
    method Neg(a: NodeId) returns (r: NodeId)
      requires Valid() && a < |data|
      modifies this
      ensures Valid() && r == old(|data|)
      ensures data == old(data) + [-old(data[a])] && grad == old(grad) + [0.0]
      ensures rules == old(rules) + [Applied(Op.Neg, [Ref(a)])]
    {
      r := Push(-data[a], Applied(Op.Neg, [Ref(a)]));
    }

    /** `a ** p` for a number `p`; the power is computed before the node is
        made, so zero to a negative power raises and leaves the arena alone. */
    method Pow(num: Numerics, a: NodeId, p: real) returns (r: Result<NodeId>)
      requires Valid() && a < |data|
      modifies this
      ensures Valid()
      ensures PyPow(num, old(data[a]), p).Err? ==>
                r == Err(ZeroDivisionError) && data == old(data) && grad == old(grad) && rules == old(rules)
      ensures PyPow(num, old(data[a]), p).Ok? ==>
                r == Ok(old(|data|)) && data == old(data) + [PyPow(num, old(data[a]), p).value] &&
                grad == old(grad) + [0.0] && rules == old(rules) + [Applied(Op.Pow, [Ref(a), Const(p)])]
    {
      var y := PyPow(num, data[a], p);
      if y.Err? {
        return Err(y.error);
      }
      var id := Push(y.value, Applied(Op.Pow, [Ref(a), Const(p)]));
      r := Ok(id);
    }

    /** `a / b` for two nodes: `a * b ** -1`. A zero divisor raises
        ZeroDivisionError when the power is taken, before any node is made. */
    method Div(num: Numerics, a: NodeId, b: NodeId) returns (r: Result<NodeId>)
      requires Valid() && a < |data| && b < |data|
      modifies this
      ensures Valid()
      ensures old(data[b]) == 0.0 ==> (
                r == Err(ZeroDivisionError) && data == old(data) && grad == old(grad) && rules == old(rules))
      ensures old(data[b]) != 0.0 ==> (
                var n := old(|data|);
                r == Ok(n + 1) && |data| == n + 2 && data[..n] == old(data) &&
                data[n] * old(data[b]) == 1.0 && data[n + 1] == Times(old(data[a]), data[n]) &&
                grad == old(grad) + [0.0, 0.0] &&
                rules == old(rules) + [Applied(Op.Pow, [Ref(b), Const(-1.0)]), Applied(Op.Mul, [Ref(a), Ref(n)])])
      ensures r.Ok? ==> data[r.value] * old(data[b]) == old(data[a])
    {
      var inverse := Pow(num, b, -1.0);
      if inverse.Err? {
        return Err(inverse.error);
      }
      ghost var x, y, q := old(data[a]), old(data[b]), data[inverse.value];
      assert q * Power(y, 1) == 1.0;
      var id := Mul(a, inverse.value);
      r := Ok(id);
      assert data[id] == x * q;
      assert x * q * y == x * (q * y);
    }

    /** `a.exp()`. */
    method Exp(num: Numerics, a: NodeId) returns (r: NodeId)
      requires Valid() && a < |data|
      modifies this
      ensures Valid() && r == old(|data|)
      ensures data == old(data) + [num.exp(old(data[a]))] && grad == old(grad) + [0.0]
      ensures rules == old(rules) + [Applied(Op.Exp, [Ref(a)])]
    {
      r := Push(num.exp(data[a]), Applied(Op.Exp, [Ref(a)]));
    }

    /** `a.ln()`: the forward value is the plain logarithm (no epsilon). */
    method Ln(num: Numerics, a: NodeId) returns (r: NodeId)
      requires Valid() && a < |data|
      modifies this
      ensures Valid() && r == old(|data|)
      ensures data == old(data) + [num.ln(old(data[a]))] && grad == old(grad) + [0.0]
      ensures rules == old(rules) + [Applied(Op.Ln, [Ref(a)])]
    {
      r := Push(num.ln(data[a]), Applied(Op.Ln, [Ref(a)]));
    }

    /** `a.max(c)` for a number `c`: the larger of the two, the node's data on a tie. */
    method Max(a: NodeId, c: real) returns (r: NodeId)
      requires Valid() && a < |data|
      modifies this
      ensures Valid() && r == old(|data|)
      ensures data == old(data) + [if old(data[a]) >= c then old(data[a]) else c] && grad == old(grad) + [0.0]
      ensures rules == old(rules) + [Applied(Op.Max, [Ref(a), Const(c)])]
      ensures data[r] >= old(data[a]) && data[r] >= c && (data[r] == old(data[a]) || data[r] == c)
    {
      r := Push(if data[a] >= c then data[a] else c, Applied(Op.Max, [Ref(a), Const(c)]));
    }

    /** `a.min(c)` for a number `c`: the smaller of the two, the node's data on a tie. */
    method Min(a: NodeId, c: real) returns (r: NodeId)
      requires Valid() && a < |data|
      modifies this
      ensures Valid() && r == old(|data|)
      ensures data == old(data) + [if old(data[a]) <= c then old(data[a]) else c] && grad == old(grad) + [0.0]
      ensures rules == old(rules) + [Applied(Op.Min, [Ref(a), Const(c)])]
      ensures data[r] <= old(data[a]) && data[r] <= c && (data[r] == old(data[a]) || data[r] == c)
    {
      r := Push(if data[a] <= c then data[a] else c, Applied(Op.Min, [Ref(a), Const(c)]));
    }

    /** `v.zero_grad()`. */
    method ZeroGrad(v: NodeId)
      requires Valid() && v < |grad|
      modifies this
      ensures Valid() && data == old(data) && rules == old(rules) && grad == old(grad)[v := 0.0]
    {
      grad := grad[v := 0.0];
    }

    /** `v.grad = x` (the optimizer seeds the loss with 1). */
    method SetGrad(v: NodeId, x: real)
      requires Valid() && v < |grad|
      modifies this
      ensures Valid() && data == old(data) && rules == old(rules) && grad == old(grad)[v := x]
    {
      grad := grad[v := x];
    }

    /** `v.data -= x` (an optimizer update). */
    method SubtractFromData(v: NodeId, x: real)
      requires Valid() && v < |data|
      modifies this
      ensures Valid() && grad == old(grad) && rules == old(rules) && data == old(data)[v := old(data[v]) - x]
    {
      data := data[v := data[v] - x];
    }

    /** `c._backward()`: for every operand that is a node, in order, add the
        output's gradient times the local partial to the operand's gradient.
        A partial that raises ends the loop with the earlier updates kept. */
    method RunBackward(num: Numerics, c: NodeId) returns (raised: Option<Error>)
      requires Valid() && c < |rules|
      modifies this
      ensures Valid() && data == old(data) && rules == old(rules)
      ensures Outcome(grad, raised) == Step(Snapshot(num), c, old(grad))
    {
      var g := Snapshot(num);
      var inVars := InVars(g, c);
      var outGrad := grad[c];
      var k := 0;
      while k < |inVars|
        invariant k <= |inVars| && |grad| == |rules| && Valid()
        invariant data == old(data) && rules == old(rules)
        invariant StepFrom(g, c, outGrad, grad, k) == StepFrom(g, c, outGrad, old(grad), 0)
      {
        if inVars[k].Ref? {
          var id := inVars[k].id;
          var partial := PartialAt(g, c, k);
          if partial.Err? {
            return Some(partial.error);
          }
          grad := grad[id := grad[id] + Times(outGrad, partial.value)];
        }
        k := k + 1;
      }
      raised := None;
    }

    /** `for node in order: node._backward()`: stops at the first exception,
        keeping the updates made before it. */
    method RunAll(num: Numerics, order: seq<NodeId>) returns (raised: Option<Error>)
      requires Valid() && InGraph(Snapshot(num), order)
      modifies this
      ensures Valid() && data == old(data) && rules == old(rules)
      ensures Outcome(grad, raised) == Propagate(Snapshot(num), order, old(grad))
    {
      var g := Snapshot(num);
      var i := 0;
      while i < |order|
        invariant i <= |order| && Valid() && data == old(data) && rules == old(rules)
        invariant Propagate(g, order[i..], grad) == Propagate(g, order, old(grad))
      {
        raised := RunBackward(num, order[i]);
        if raised.Some? {
          return;
        }
        assert order[i..][1..] == order[i + 1..];
        i := i + 1;
      }
      raised := None;
    }
  }
}
