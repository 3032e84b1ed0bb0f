/** The operation tags and the local-partial dispatcher `Derivative`
    (lib/calculus.py), as pure functions over the data of the nodes. */
module Calculus {
  import opened Common

  /** The tags of `Op`; any other tag a caller might pass is `Unrecognised`. */
  datatype Op = Add | Mul | Neg | Pow | Exp | Ln | Max | Min | Unrecognised(tag: string)

  /** A node is known by its identity: its index in the node arena. */
  type NodeId = nat

  /** One entry of a node's `in_vars`: another node, or a plain number
      (the exponent of a power, the threshold of max/min). */
  datatype Operand = Ref(id: NodeId) | Const(c: real)

  /** exp, ln and powers with a non-integer exponent are left uninterpreted:
      whatever functions the floating-point library computes. */
  datatype Numerics = Numerics(exp: real -> real, ln: real -> real, rpow: (real, real) -> real)

  /** `Derivative.EPSILON`, the guard in the partial of ln. */
  const Epsilon: real := 0.0000000001

  /** Every node an entry refers to has an index below `n`. */
  predicate RefsBelow(inVars: seq<Operand>, n: nat)
  {
    forall k :: 0 <= k < |inVars| && inVars[k].Ref? ==> inVars[k].id < n
  }

  lemma PowerNonZero(x: real, n: nat)
    requires x != 0.0
    ensures Power(x, n) != 0.0
  {
    if n > 0 {
      PowerNonZero(x, n - 1);
    }
  }

  /** Python's float `x ** p`: an integral exponent is computed exactly, zero to
      a negative power raises ZeroDivisionError, and any other power is left to
      the uninterpreted `rpow`. */
  function PyPow(num: Numerics, x: real, p: real): (r: Result<real>)
    ensures r.Err? <==> x == 0.0 && p < 0.0
    ensures r.Err? ==> r.error == ZeroDivisionError
    ensures r.Ok? && p == p.Floor as real && p >= 0.0 ==> r.value == Power(x, p.Floor as nat)
    ensures r.Ok? && p == p.Floor as real && p < 0.0 ==> r.value * Power(x, (-p).Floor as nat) == 1.0
  {
    if x == 0.0 && p < 0.0 then Err(ZeroDivisionError)
    else if p == p.Floor as real then
      if p >= 0.0 then Ok(Power(x, p.Floor as nat))
      else
        PowerNonZero(x, (-p).Floor as nat);
        Ok(1.0 / Power(x, (-p).Floor as nat))
    else Ok(num.rpow(x, p))
  }

  /** `Derivative._other_var`: the first entry of `in_vars` that is not the node
      `wrt`; nodes compare by identity, and a plain number never equals a node.
      When every entry is `wrt` the filtered list is empty and `[0]` raises. */
  function OtherVar(inVars: seq<Operand>, wrt: NodeId): (r: Result<Operand>)
    ensures r.Err? <==> forall k :: 0 <= k < |inVars| ==> inVars[k] == Ref(wrt)
    ensures r.Err? ==> r.error == IndexError
    ensures r.Ok? ==> exists k :: 0 <= k < |inVars| && inVars[k] == r.value && r.value != Ref(wrt) &&
                                  forall j :: 0 <= j < k ==> inVars[j] == Ref(wrt)
  {
    if inVars == [] then Err(IndexError)
    else if inVars[0] != Ref(wrt) then Ok(inVars[0])
    else
      var r := OtherVar(inVars[1..], wrt);
      assert forall k :: 1 <= k < |inVars| ==> inVars[k] == inVars[1..][k - 1];
      if r.Ok? then
        var k :| 0 <= k < |inVars[1..]| && inVars[1..][k] == r.value && r.value != Ref(wrt) &&
                 forall j :: 0 <= j < k ==> inVars[1..][j] == Ref(wrt);
        assert inVars[k + 1] == r.value;
        r
      else r
  }

  /** The local partial of `op` with respect to the operand `wrt` (the `match`
      of `Derivative.__call__`); `data[i]` is the current `data` of node `i`.
      An unrecognised tag leaves the partial as `None`, and multiplying by it
      raises TypeError. An operand of the wrong kind (a number where a node is
      read, a node where a number is compared) fails as Python does. */
  function LocalPartial(num: Numerics, op: Op, inVars: seq<Operand>, data: seq<real>, wrt: NodeId): Result<real>
    requires RefsBelow(inVars, |data|) && wrt < |data|
  {
    match op
    case Add => Ok(1.0)
    case Neg => Ok(-1.0)
    case Mul =>
      var other :- OtherVar(inVars, wrt);
      if other.Ref? then Ok(data[other.id]) else Err(TypeError)
    case Pow =>
      var power :- OtherVar(inVars, wrt);
      if power.Const? then
        var q :- PyPow(num, data[wrt], power.c - 1.0);
        Ok(power.c * q)
      else Err(TypeError)
    case Exp => Ok(num.exp(data[wrt]))
    case Ln =>
      if data[wrt] + Epsilon == 0.0 then Err(ZeroDivisionError) else Ok(1.0 / (data[wrt] + Epsilon))
    case Max =>
      var bound :- OtherVar(inVars, wrt);
      if bound.Const? then Ok(if data[wrt] >= bound.c then 1.0 else 0.0) else Err(TypeError)
    case Min =>
      var bound :- OtherVar(inVars, wrt);
      if bound.Const? then Ok(if data[wrt] <= bound.c then 1.0 else 0.0) else Err(TypeError)
    case Unrecognised(_) => Err(TypeError)
  }

  /** `Derivative(op, in_vars, out_var)(wrt_var)`: the contribution of the
      output to the gradient of `wrt`. `outGrad` is `out_var.grad` as it is
      when the derivative is called, not when it was built. */
  function Derivative(num: Numerics, op: Op, inVars: seq<Operand>, data: seq<real>, outGrad: real, wrt: NodeId): (r: Result<real>)
    requires RefsBelow(inVars, |data|) && wrt < |data|
    ensures r == if LocalPartial(num, op, inVars, data, wrt).Ok?
                 then Ok(Times(outGrad, LocalPartial(num, op, inVars, data, wrt).value))
                 else Err(LocalPartial(num, op, inVars, data, wrt).error)
  {
    var partial :- LocalPartial(num, op, inVars, data, wrt);
    Ok(Times(outGrad, partial))
  }

  // ---------------------------------------------------------------------------
  // The dispatch table on the operand lists the operators of the node class build.

  /** `_other_var` on a two-entry list. */
  lemma OtherVarOfPair(x: Operand, y: Operand)
    ensures x.Ref? ==> OtherVar([x, y], x.id) == (if y == x then Err(IndexError) else Ok(y))
    ensures y.Ref? && x != y ==> OtherVar([x, y], y.id) == Ok(x)
  {
    assert [x, y][1..] == [y];
    if x.Ref? && y == x {
      assert OtherVar([y], x.id) == OtherVar([], x.id) by { assert [y][1..] == []; }
    }
  }

  /** Sum: the partial is 1 for either operand; negation: -1. */
  lemma AddAndNegPartials(num: Numerics, a: NodeId, b: NodeId, data: seq<real>, g: real)
    requires a < |data| && b < |data|
    ensures Derivative(num, Add, [Ref(a), Ref(b)], data, g, a) == Ok(g)
    ensures Derivative(num, Add, [Ref(a), Ref(b)], data, g, b) == Ok(g)
    ensures Derivative(num, Neg, [Ref(a)], data, g, a) == Ok(-g)
  {
    assert LocalPartial(num, Add, [Ref(a), Ref(b)], data, a) == Ok(1.0);
    assert LocalPartial(num, Add, [Ref(a), Ref(b)], data, b) == Ok(1.0);
    assert LocalPartial(num, Neg, [Ref(a)], data, a) == Ok(-1.0);
  }

  /** Product: the partial is the data of the OTHER operand, chosen by identity. */
  lemma MulPartialIsOtherData(num: Numerics, a: NodeId, b: NodeId, data: seq<real>, g: real)
    requires a < |data| && b < |data| && a != b
    ensures Derivative(num, Mul, [Ref(a), Ref(b)], data, g, a) == Ok(g * data[b])
    ensures Derivative(num, Mul, [Ref(a), Ref(b)], data, g, b) == Ok(g * data[a])
  {
    OtherVarOfPair(Ref(a), Ref(b));
    assert LocalPartial(num, Mul, [Ref(a), Ref(b)], data, a) == Ok(data[b]);
    assert LocalPartial(num, Mul, [Ref(a), Ref(b)], data, b) == Ok(data[a]);
  }

  /** A node multiplied by itself: the identity filter leaves nothing, so the
      derivative raises IndexError instead of giving the other factor. */
  lemma MulSelfRaises(num: Numerics, a: NodeId, data: seq<real>, g: real)
    requires a < |data|
    ensures Derivative(num, Mul, [Ref(a), Ref(a)], data, g, a) == Err(IndexError)
  {
    OtherVarOfPair(Ref(a), Ref(a));
  }

  /** Power by a constant p: p * x ** (p - 1). */
  lemma PowPartial(num: Numerics, a: NodeId, p: real, data: seq<real>, g: real)
    requires a < |data|
    ensures PyPow(num, data[a], p - 1.0).Ok? ==>
              Derivative(num, Pow, [Ref(a), Const(p)], data, g, a).Ok? &&
              Derivative(num, Pow, [Ref(a), Const(p)], data, g, a).value == g * (p * PyPow(num, data[a], p - 1.0).value)
    ensures PyPow(num, data[a], p - 1.0).Err? ==>
              Derivative(num, Pow, [Ref(a), Const(p)], data, g, a) == Err(ZeroDivisionError)
  {
    OtherVarOfPair(Ref(a), Const(p));
  }

  /** exp: the partial is exp(x); ln: 1 / (x + 1e-10), raising when that sum is zero. */
  lemma ExpAndLnPartials(num: Numerics, a: NodeId, data: seq<real>, g: real)
    requires a < |data|
    ensures Derivative(num, Exp, [Ref(a)], data, g, a) == Ok(g * num.exp(data[a]))
    ensures data[a] + Epsilon != 0.0 ==> Derivative(num, Ln, [Ref(a)], data, g, a).Ok? &&
                                         Derivative(num, Ln, [Ref(a)], data, g, a).value == g * (1.0 / (data[a] + Epsilon))
    ensures data[a] + Epsilon == 0.0 ==> Derivative(num, Ln, [Ref(a)], data, g, a) == Err(ZeroDivisionError)
  {
    assert LocalPartial(num, Exp, [Ref(a)], data, a) == Ok(num.exp(data[a]));
  }

  /** max against a constant c passes the gradient iff x >= c, min iff x <= c:
      a tie passes it in both. */
  lemma MaxMinPartials(num: Numerics, a: NodeId, c: real, data: seq<real>, g: real)
    requires a < |data|
    ensures Derivative(num, Max, [Ref(a), Const(c)], data, g, a) == Ok(if data[a] >= c then g else 0.0)
    ensures Derivative(num, Min, [Ref(a), Const(c)], data, g, a) == Ok(if data[a] <= c then g else 0.0)
    ensures data[a] == c ==> Derivative(num, Max, [Ref(a), Const(c)], data, g, a) == Ok(g) &&
                             Derivative(num, Min, [Ref(a), Const(c)], data, g, a) == Ok(g)
  {
    OtherVarOfPair(Ref(a), Const(c));
    assert LocalPartial(num, Max, [Ref(a), Const(c)], data, a) == Ok(if data[a] >= c then 1.0 else 0.0);
    assert LocalPartial(num, Min, [Ref(a), Const(c)], data, a) == Ok(if data[a] <= c then 1.0 else 0.0);
  }

  /** An unrecognised tag never yields a silent zero: it raises TypeError. */
  lemma UnrecognisedRaises(num: Numerics, tag: string, inVars: seq<Operand>, data: seq<real>, g: real, wrt: NodeId)
    requires RefsBelow(inVars, |data|) && wrt < |data|
    ensures Derivative(num, Unrecognised(tag), inVars, data, g, wrt) == Err(TypeError)
  {
  }

  // ---------------------------------------------------------------------------
  // The corrected dispatcher: the other operand is chosen by POSITION.

  /** The first entry of `inVars` at a position other than `k`. */
  function OtherAt(inVars: seq<Operand>, k: nat): (r: Result<Operand>)
    ensures r.Err? <==> |inVars| == 0 || (|inVars| == 1 && k == 0)
    ensures r.Err? ==> r.error == IndexError
    ensures r.Ok? ==> r.value == inVars[if k == 0 then 1 else 0]
  {
    if |inVars| == 0 || (|inVars| == 1 && k == 0) then Err(IndexError)
    else if k != 0 then Ok(inVars[0])
    else Ok(inVars[1])
  }

  /** The local partial with respect to the operand at position `k`: the same
      table as `LocalPartial`, but the other factor of a product, the exponent
      and the threshold are found by position, so a node used twice by one
      operation (x * x) gets the other occurrence instead of an IndexError. */
  function LocalPartialAt(num: Numerics, op: Op, inVars: seq<Operand>, data: seq<real>, k: nat): Result<real>
    requires RefsBelow(inVars, |data|) && k < |inVars| && inVars[k].Ref?
  {
    var x := data[inVars[k].id];
    match op
    case Add => Ok(1.0)
    case Neg => Ok(-1.0)
    case Mul =>
      var other :- OtherAt(inVars, k);
      if other.Ref? then Ok(data[other.id]) else Err(TypeError)
    case Pow =>
      var power :- OtherAt(inVars, k);
      if power.Const? then
        var q :- PyPow(num, x, power.c - 1.0);
        Ok(power.c * q)
      else Err(TypeError)
    case Exp => Ok(num.exp(x))
    case Ln => if x + Epsilon == 0.0 then Err(ZeroDivisionError) else Ok(1.0 / (x + Epsilon))
    case Max =>
      var bound :- OtherAt(inVars, k);
      if bound.Const? then Ok(if x >= bound.c then 1.0 else 0.0) else Err(TypeError)
    case Min =>
      var bound :- OtherAt(inVars, k);
      if bound.Const? then Ok(if x <= bound.c then 1.0 else 0.0) else Err(TypeError)
    case Unrecognised(_) => Err(TypeError)
  }

  /** On every operand list an operator builds (one or two entries), the
      positional dispatcher agrees with the source's wherever the source does
      not raise. */
  lemma PositionalAgrees(num: Numerics, op: Op, inVars: seq<Operand>, data: seq<real>, k: nat)
    requires RefsBelow(inVars, |data|) && k < |inVars| <= 2 && inVars[k].Ref?
    requires LocalPartial(num, op, inVars, data, inVars[k].id).Ok?
    ensures LocalPartialAt(num, op, inVars, data, k).Ok?
    ensures LocalPartialAt(num, op, inVars, data, k).value == LocalPartial(num, op, inVars, data, inVars[k].id).value
  {
    var w := inVars[k].id;
    if op.Mul? || op.Pow? || op.Max? || op.Min? {
      var o := OtherVar(inVars, w);
      assert o.Ok?;
      var j :| 0 <= j < |inVars| && inVars[j] == o.value && o.value != Ref(w) &&
               forall i :: 0 <= i < j ==> inVars[i] == Ref(w);
      assert j != k;
      assert OtherAt(inVars, k) == Ok(inVars[j]);
    }
  }

  /** The corrected dispatcher on x * x: the partial is x itself (each of the
      two occurrences contributes one x). */
  lemma SquarePartialAt(num: Numerics, a: NodeId, data: seq<real>)
    requires a < |data|
    ensures LocalPartialAt(num, Mul, [Ref(a), Ref(a)], data, 0) == Ok(data[a])
    ensures LocalPartialAt(num, Mul, [Ref(a), Ref(a)], data, 1) == Ok(data[a])
  {
  }
}
