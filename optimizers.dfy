/** The optimizers of lib/optimizers.py over the node arena. Each keeps the
    tracked `Value`s (node ids, flattened from the parameters), its
    coefficients and its per-value accumulators. `step` zeroes the tracked
    gradients, seeds the loss with 1, runs `backward` and then
    `_update_grads`, which walks the tracked values in order and subtracts
    a step from each one's `data`.

    Every `_update_grads` is specified by two functions of the state before
    it: the new accumulators and the list of steps, where a step is a
    `Result` because a Python float division by zero raises. The pass stops
    at the first step that raises (`FirstErr`), with the updates before it
    kept; `Descend` is what the pass does to `data`. */
module Optimizers {
  import opened Common
  import opened Calculus
  import opened Backprop
  import opened Nodes
  import opened LinearAlgebra
  import ValueEngine

  /** `EPSILON`. */
  const Eps: real := 0.00000001

  /** Python's float `a / b`. */
  function Div(a: real, b: real): (r: Result<real>)
    ensures r.Err? <==> b == 0.0
    ensures r.Err? ==> r.error == ZeroDivisionError
    ensures r.Ok? ==> r.value * b == a
  {
    if b == 0.0 then Err(ZeroDivisionError) else Ok(a / b)
  }

  /** `x ** 0.5`: a non-integral power of a float, left to the
      floating-point library as in `PyPow`. */
  function Sqrt(num: Numerics, x: real): real
  {
    num.rpow(x, 0.5)
  }

  /** The position of the first step that raises, or the number of steps
      when none does. */
  function FirstErr(steps: seq<Result<real>>): (n: nat)
    ensures n <= |steps|
    ensures forall k :: 0 <= k < n ==> steps[k].Ok?
    ensures n < |steps| ==> steps[n].Err?
  {
    if steps == [] then 0
    else if steps[0].Err? then 0
    else 1 + FirstErr(steps[1..])
  }

  /** `v.data -= step` for the first `|steps|` tracked values, in order. */
  function Descend(data: seq<real>, values: seq<NodeId>, steps: seq<Result<real>>): (r: seq<real>)
    requires |steps| <= |values| && Within(data, values)
    requires forall k :: 0 <= k < |steps| ==> steps[k].Ok?
    ensures |r| == |data|
  {
    if steps == [] then data
    else
      var n := |steps| - 1;
      var d := Descend(data, values, steps[..n]);
      d[values[n] := d[values[n]] - steps[n].value]
  }

  /** One more step of the pass. */
  lemma DescendNext(data: seq<real>, values: seq<NodeId>, steps: seq<Result<real>>, k: nat, d: seq<real>)
    requires k < |steps| <= |values| && Within(data, values)
    requires forall i :: 0 <= i < k + 1 ==> steps[i].Ok?
    requires d == Descend(data, values, steps[..k])
    ensures |d| == |data| && values[k] < |d|
    ensures Descend(data, values, steps[..k + 1]) == d[values[k] := d[values[k]] - steps[k].value]
  {
    assert steps[..k + 1][..k] == steps[..k];
  }

  /** The sum of the steps taken at node `x`. */
  function Total(values: seq<NodeId>, steps: seq<Result<real>>, x: NodeId): real
    requires |steps| <= |values|
    requires forall k :: 0 <= k < |steps| ==> steps[k].Ok?
  {
    if steps == [] then 0.0
    else
      var n := |steps| - 1;
      Total(values, steps[..n], x) + if values[n] == x then steps[n].value else 0.0
  }

  /** What a pass does to `data`: every node loses the sum of the steps
      taken at it (a value tracked twice loses both). */
  lemma {:induction false} DescendTotal(data: seq<real>, values: seq<NodeId>, steps: seq<Result<real>>)
    requires |steps| <= |values| && Within(data, values)
    requires forall k :: 0 <= k < |steps| ==> steps[k].Ok?
    ensures forall x :: 0 <= x < |data| ==> Descend(data, values, steps)[x] == data[x] - Total(values, steps, x)
  {
    if steps != [] {
      DescendTotal(data, values, steps[..|steps| - 1]);
    }
  }

  lemma {:induction false} TotalOfUntracked(values: seq<NodeId>, steps: seq<Result<real>>, x: NodeId)
    requires |steps| <= |values|
    requires forall k :: 0 <= k < |steps| ==> steps[k].Ok?
    requires forall k :: 0 <= k < |steps| ==> values[k] != x
    ensures Total(values, steps, x) == 0.0
  {
    if steps != [] {
      TotalOfUntracked(values, steps[..|steps| - 1], x);
    }
  }

  lemma {:induction false} TotalOfDistinct(values: seq<NodeId>, steps: seq<Result<real>>, i: nat)
    requires |steps| <= |values| && Distinct(values) && i < |steps|
    requires forall k :: 0 <= k < |steps| ==> steps[k].Ok?
    ensures Total(values, steps, values[i]) == steps[i].value
  {
    var n := |steps| - 1;
    if i == n {
      TotalOfUntracked(values, steps[..n], values[i]);
    } else {
      TotalOfDistinct(values, steps[..n], i);
    }
  }

  /** Hence a node that is not tracked keeps its `data`, and when no value
      is tracked twice each one loses exactly its own step. */
  lemma DescendEffect(data: seq<real>, values: seq<NodeId>, steps: seq<Result<real>>)
    requires |steps| <= |values| && Within(data, values)
    requires forall k :: 0 <= k < |steps| ==> steps[k].Ok?
    ensures forall x :: 0 <= x < |data| && x !in values ==> Descend(data, values, steps)[x] == data[x]
    ensures Distinct(values) ==>
              forall i :: 0 <= i < |steps| ==> Descend(data, values, steps)[values[i]] == data[values[i]] - steps[i].value
  {
    DescendTotal(data, values, steps);
    forall x | 0 <= x < |data| && x !in values
      ensures Total(values, steps, x) == 0.0
    {
      TotalOfUntracked(values, steps, x);
    }
    if Distinct(values) {
      forall i | 0 <= i < |steps|
        ensures Total(values, steps, values[i]) == steps[i].value
      {
        TotalOfDistinct(values, steps, i);
      }
    }
  }

  /** The accumulators after a pass that has assigned the first `m`: those
      are new, the rest are as before. A pass that raises at position `n`
      has assigned `n + 1` (Python assigns the accumulator before the
      division that raises). */
  function Renewed(updated: seq<real>, prior: seq<real>, m: nat): (r: seq<real>)
    requires |updated| == |prior|
    ensures |r| == |prior|
    ensures forall k :: 0 <= k < |r| ==> r[k] == if k < m then updated[k] else prior[k]
  {
    seq(|prior|, k requires 0 <= k < |prior| => if k < m then updated[k] else prior[k])
  }

  /** Accumulators that each only grew still have, after a pass that
      stopped anywhere, each grown. */
  lemma RenewedGrows(updated: seq<real>, prior: seq<real>, m: nat)
    requires |updated| == |prior| && forall k :: 0 <= k < |prior| ==> updated[k] >= prior[k]
    ensures forall k :: 0 <= k < |prior| ==> Renewed(updated, prior, m)[k] >= prior[k]
  {
  }

  /** The gradients `step` leaves before the update: the tracked values'
      zeroed, the loss's set to 1. */
  function Seeded(grad: seq<real>, values: seq<NodeId>, loss: NodeId): (r: seq<real>)
    requires loss < |grad|
    ensures |r| == |grad| && r[loss] == 1.0
    ensures forall k :: 0 <= k < |grad| && k != loss ==> r[k] == if k in values then 0.0 else grad[k]
  {
    seq(|grad|, k requires 0 <= k < |grad| => if k in values then 0.0 else grad[k])[loss := 1.0]
  }

  /** The first three lines of `step`: zero every tracked gradient, set
      `loss.grad = 1`, run `loss.backward()`. It raises exactly when the
      backward pass does, and otherwise leaves the gradients of the
      reference backward pass from the seeded gradients. */
  method Prepare(arena: Arena, num: Numerics, values: seq<NodeId>, loss: NodeId) returns (raised: Option<Error>)
    requires arena.Valid() && Within(arena.data, values) && loss < |arena.data|
    modifies arena
    ensures arena.Valid() && arena.data == old(arena.data) && arena.rules == old(arena.rules)
    ensures raised.Some? <==> !AllDifferentiable(arena.Snapshot(num), Descendants(arena.Snapshot(num), loss))
    ensures raised == None ==>
              arena.grad == BackwardSpec(arena.Snapshot(num), loss, Seeded(old(arena.grad), values, loss)).grad
  {
    ZeroGrads(arena, values);
    arena.SetGrad(loss, 1.0);
    assert arena.grad == Seeded(old(arena.grad), values, loss);
    var order;
    raised, order := ValueEngine.Backward(arena, num, loss);
  }

  // ---------------------------------------------------------------------------
  // SgdOptimizer
  // ---------------------------------------------------------------------------

  function SgdSteps(lr: real, values: seq<NodeId>, grad: seq<real>): (r: seq<Result<real>>)
    requires Within(grad, values)
    ensures |r| == |values| && forall k :: 0 <= k < |r| ==> r[k] == Ok(Times(lr, grad[values[k]]))
  {
    seq(|values|, k requires 0 <= k < |values| => Ok(Times(lr, grad[values[k]])))
  }

  class Sgd {
    const values: seq<NodeId>
    const learningRate: real

    /** The tracked list is every parameter's `all_values()`, in order. */
    constructor (params: seq<seq<NodeId>>, learningRate: real)
      ensures values == Flatten(params) && this.learningRate == learningRate
    {
      values := Flatten(params);
      this.learningRate := learningRate;
    }

    /** `data -= lr * grad` for each tracked value; nothing else changes. */
    method UpdateGrads(arena: Arena)
      requires arena.Valid() && Within(arena.data, values)
      modifies arena
      ensures arena.Valid() && arena.grad == old(arena.grad) && arena.rules == old(arena.rules)
      ensures arena.data == Descend(old(arena.data), values, SgdSteps(learningRate, values, arena.grad))
    {
      ghost var steps := SgdSteps(learningRate, values, arena.grad);
      var k := 0;
      while k < |values|
        invariant k <= |values| && arena.Valid()
        invariant arena.grad == old(arena.grad) && arena.rules == old(arena.rules)
        invariant |arena.data| == old(|arena.data|)
        invariant arena.data == Descend(old(arena.data), values, steps[..k])
      {
        DescendNext(old(arena.data), values, steps, k, arena.data);
        arena.SubtractFromData(values[k], Times(learningRate, arena.grad[values[k]]));
        k := k + 1;
      }
      assert steps[..k] == steps;
    }

    /** `step(loss)`. When backward raises, no `data` changes. */
    method Step(arena: Arena, num: Numerics, loss: NodeId) returns (raised: Option<Error>)
      requires arena.Valid() && Within(arena.data, values) && loss < |arena.data|
      modifies arena
      ensures arena.Valid() && arena.rules == old(arena.rules)
      ensures raised.Some? <==> !AllDifferentiable(old(arena.Snapshot(num)), Descendants(old(arena.Snapshot(num)), loss))
      ensures raised.Some? ==> arena.data == old(arena.data)
      ensures raised == None ==>
                arena.grad == BackwardSpec(old(arena.Snapshot(num)), loss, Seeded(old(arena.grad), values, loss)).grad
      ensures raised == None ==>
                arena.data == Descend(old(arena.data), values, SgdSteps(learningRate, values, arena.grad))
    {
      ghost var g := arena.Snapshot(num);
      raised := Prepare(arena, num, values, loss);
      assert arena.Snapshot(num) == g;
      if raised == None {
        ghost var backwardGrad := arena.grad;
        UpdateGrads(arena);
        assert arena.grad == backwardGrad;
      }
    }
  }

  // ---------------------------------------------------------------------------
  // SgdWithMomentumOptimizer
  // ---------------------------------------------------------------------------

  function MomentumAccums(beta: real, accums: seq<real>, values: seq<NodeId>, grad: seq<real>): (r: seq<real>)
    requires |accums| == |values| && Within(grad, values)
    ensures |r| == |values|
    ensures forall k :: 0 <= k < |r| ==> r[k] == Times(beta, accums[k]) + Times(1.0 - beta, grad[values[k]])
  {
    seq(|values|, k requires 0 <= k < |values| => Times(beta, accums[k]) + Times(1.0 - beta, grad[values[k]]))
  }

  function MomentumSteps(lr: real, accums: seq<real>): (r: seq<Result<real>>)
    ensures |r| == |accums| && forall k :: 0 <= k < |r| ==> r[k] == Ok(Times(lr, accums[k]))
  {
    seq(|accums|, k requires 0 <= k < |accums| => Ok(Times(lr, accums[k])))
  }

  /** With a coefficient in [0, 1] the new accumulator lies between the old
      one and the gradient: an exponential moving average. */
  lemma MomentumAverages(beta: real, acc: real, g: real)
    requires 0.0 <= beta <= 1.0
    ensures var a := beta * acc + (1.0 - beta) * g;
            (acc <= g ==> acc <= a <= g) && (g <= acc ==> g <= a <= acc)
  {
    var a := beta * acc + (1.0 - beta) * g;
    assert a - acc == (1.0 - beta) * (g - acc);
    assert g - a == beta * (g - acc);
  }

  class Momentum {
    const values: seq<NodeId>
    const learningRate: real
    const momentumCoef: real
    var gradAccums: seq<real>

    ghost predicate Valid()
      reads this
    {
      |gradAccums| == |values|
    }

    /** One accumulator per tracked value, each 0. */
    constructor (params: seq<seq<NodeId>>, learningRate: real, momentumCoef: real)
      ensures Valid() && values == Flatten(params)
      ensures this.learningRate == learningRate && this.momentumCoef == momentumCoef
      ensures gradAccums == Repeat(0.0, |values|)
    {
      values := Flatten(params);
      this.learningRate := learningRate;
      this.momentumCoef := momentumCoef;
      gradAccums := Repeat(0.0, |Flatten(params)|);
    }

    /** `acc = β·acc + (1-β)·grad`, then `data -= lr·acc`, value by value. */
    method UpdateGrads(arena: Arena)
      requires Valid() && arena.Valid() && Within(arena.data, values)
      modifies this, arena
      ensures Valid() && arena.Valid() && arena.grad == old(arena.grad) && arena.rules == old(arena.rules)
      ensures gradAccums == MomentumAccums(momentumCoef, old(gradAccums), values, arena.grad)
      ensures arena.data == Descend(old(arena.data), values, MomentumSteps(learningRate, gradAccums))
    {
      ghost var accums := MomentumAccums(momentumCoef, gradAccums, values, arena.grad);
      ghost var steps := MomentumSteps(learningRate, accums);
      var k := 0;
      while k < |values|
        invariant k <= |values| && arena.Valid() && Valid()
        invariant arena.grad == old(arena.grad) && arena.rules == old(arena.rules)
        invariant |arena.data| == old(|arena.data|)
        invariant forall i :: 0 <= i < |values| ==> gradAccums[i] == if i < k then accums[i] else old(gradAccums[i])
        invariant arena.data == Descend(old(arena.data), values, steps[..k])
      {
        var v := values[k];
        gradAccums := gradAccums[k := Times(momentumCoef, gradAccums[k]) + Times(1.0 - momentumCoef, arena.grad[v])];
        DescendNext(old(arena.data), values, steps, k, arena.data);
        arena.SubtractFromData(v, Times(learningRate, gradAccums[k]));
        k := k + 1;
      }
      assert steps[..k] == steps;
    }

    /** `step(loss)`. When backward raises, neither `data` nor the
        accumulators change. */
    method Step(arena: Arena, num: Numerics, loss: NodeId) returns (raised: Option<Error>)
      requires Valid() && arena.Valid() && Within(arena.data, values) && loss < |arena.data|
      modifies this, arena
      ensures Valid() && arena.Valid() && arena.rules == old(arena.rules)
      ensures raised.Some? <==> !AllDifferentiable(old(arena.Snapshot(num)), Descendants(old(arena.Snapshot(num)), loss))
      ensures raised.Some? ==> arena.data == old(arena.data) && gradAccums == old(gradAccums)
      ensures raised == None ==>
                arena.grad == BackwardSpec(old(arena.Snapshot(num)), loss, Seeded(old(arena.grad), values, loss)).grad
      ensures raised == None ==>
                gradAccums == MomentumAccums(momentumCoef, old(gradAccums), values, arena.grad) &&
                arena.data == Descend(old(arena.data), values, MomentumSteps(learningRate, gradAccums))
    {
      ghost var g := arena.Snapshot(num);
      raised := Prepare(arena, num, values, loss);
      assert arena.Snapshot(num) == g;
      if raised == None {
        ghost var backwardGrad := arena.grad;
        UpdateGrads(arena);
        assert arena.grad == backwardGrad;
      }
    }
  }

  // ---------------------------------------------------------------------------
  // AdaGradOptimizer and RmsPropOptimizer
  // ---------------------------------------------------------------------------

  function AdaGradAccums(accums: seq<real>, values: seq<NodeId>, grad: seq<real>): (r: seq<real>)
    requires |accums| == |values| && Within(grad, values)
    ensures |r| == |values|
    ensures forall k :: 0 <= k < |r| ==> r[k] == accums[k] + Times(grad[values[k]], grad[values[k]])
  {
    seq(|values|, k requires 0 <= k < |values| => accums[k] + Times(grad[values[k]], grad[values[k]]))
  }

  function RmsPropAccums(beta: real, accums: seq<real>, values: seq<NodeId>, grad: seq<real>): (r: seq<real>)
    requires |accums| == |values| && Within(grad, values)
    ensures |r| == |values|
    ensures forall k :: 0 <= k < |r| ==>
              r[k] == Times(beta, accums[k]) + Times(1.0 - beta, Times(grad[values[k]], grad[values[k]]))
  {
    seq(|values|, k requires 0 <= k < |values| =>
      Times(beta, accums[k]) + Times(1.0 - beta, Times(grad[values[k]], grad[values[k]])))
  }

  /** `lr * grad / (acc + EPSILON) ** 0.5`; AdaGrad and RMSProp share it. */
  function ScaledStep(num: Numerics, lr: real, acc: real, g: real): (r: Result<real>)
    ensures r.Err? <==> Sqrt(num, acc + Eps) == 0.0
  {
    Div(Times(lr, g), Sqrt(num, acc + Eps))
  }

  /** The scaled step of each tracked value, with the new accumulators. */
  function ScaledSteps(num: Numerics, lr: real, accums: seq<real>, values: seq<NodeId>, grad: seq<real>): (r: seq<Result<real>>)
    requires |accums| == |values| && Within(grad, values)
    ensures |r| == |values|
    ensures forall k :: 0 <= k < |r| ==> r[k] == ScaledStep(num, lr, accums[k], grad[values[k]])
  {
    seq(|values|, k requires 0 <= k < |values| => ScaledStep(num, lr, accums[k], grad[values[k]]))
  }

  /** The AdaGrad accumulator only grows, and so stays non-negative. */
  lemma AdaGradAccumsGrow(accums: seq<real>, values: seq<NodeId>, grad: seq<real>)
    requires |accums| == |values| && Within(grad, values)
    ensures forall k :: 0 <= k < |values| ==> AdaGradAccums(accums, values, grad)[k] >= accums[k]
  {
    forall k | 0 <= k < |values|
      ensures grad[values[k]] * grad[values[k]] >= 0.0
    {
      var g := grad[values[k]];
      if g < 0.0 {
        assert g * g == (-g) * (-g);
      }
    }
  }

  /** With a coefficient in [0, 1], an RMSProp accumulator that was
      non-negative stays so. */
  lemma RmsPropAccumsNonNegative(beta: real, accums: seq<real>, values: seq<NodeId>, grad: seq<real>)
    requires |accums| == |values| && Within(grad, values) && 0.0 <= beta <= 1.0
    requires forall k :: 0 <= k < |accums| ==> accums[k] >= 0.0
    ensures forall k :: 0 <= k < |values| ==> RmsPropAccums(beta, accums, values, grad)[k] >= 0.0
  {
    forall k | 0 <= k < |values|
      ensures RmsPropAccums(beta, accums, values, grad)[k] >= 0.0
    {
      var g := grad[values[k]];
      var gg := g * g;
      if g < 0.0 {
        assert gg == (-g) * (-g);
      }
      assert beta * accums[k] >= 0.0;
      assert (1.0 - beta) * gg >= 0.0;
    }
  }

  /** The loop of `_update_grads` shared by AdaGrad, RMSProp and Adam,
      given the steps (each depends only on its value's own accumulators
      and gradient, which the loop does not otherwise read): `data -= step`
      value by value, stopping at the first step that raises. It returns
      the position it stopped at. */
  method Pass(arena: Arena, values: seq<NodeId>, steps: seq<Result<real>>) returns (raised: Option<Error>, n: nat)
    requires arena.Valid() && Within(arena.data, values) && |steps| == |values|
    modifies arena
    ensures arena.Valid() && arena.grad == old(arena.grad) && arena.rules == old(arena.rules)
    ensures n == FirstErr(steps)
    ensures raised.Some? <==> n < |values|
    ensures raised.Some? ==> raised.value == steps[n].error
    ensures arena.data == Descend(old(arena.data), values, steps[..n])
  {
    var k := 0;
    while k < |values|
      invariant k <= |values| && arena.Valid()
      invariant arena.grad == old(arena.grad) && arena.rules == old(arena.rules)
      invariant |arena.data| == old(|arena.data|)
      invariant forall i :: 0 <= i < k ==> steps[i].Ok?
      invariant arena.data == Descend(old(arena.data), values, steps[..k])
    {
      if steps[k].Err? {
        FirstErrAt(steps, k);
        return Some(steps[k].error), k;
      }
      DescendNext(old(arena.data), values, steps, k, arena.data);
      arena.SubtractFromData(values[k], steps[k].value);
      k := k + 1;
    }
    assert steps[..k] == steps;
    FirstErrNone(steps);
    raised, n := None, k;
  }

  class AdaGrad {
    const values: seq<NodeId>
    const learningRate: real
    var gradAccums: seq<real>

    /** One accumulator per tracked value, and (it only ever adds squares)
        none negative. */
    ghost predicate Valid()
      reads this
    {
      |gradAccums| == |values| && forall k :: 0 <= k < |gradAccums| ==> gradAccums[k] >= 0.0
    }

    constructor (params: seq<seq<NodeId>>, learningRate: real)
      ensures Valid() && values == Flatten(params) && this.learningRate == learningRate
      ensures gradAccums == Repeat(0.0, |values|)
    {
      values := Flatten(params);
      this.learningRate := learningRate;
      gradAccums := Repeat(0.0, |Flatten(params)|);
    }

    /** `acc += grad ** 2`, then `data -= lr * grad / (acc + EPSILON) ** 0.5`,
        value by value, stopping at the first division by zero. Every
        accumulator ends no smaller than it was. */
    method UpdateGrads(arena: Arena, num: Numerics) returns (raised: Option<Error>)
      requires Valid() && arena.Valid() && Within(arena.data, values)
      modifies this, arena
      ensures Valid() && arena.Valid() && arena.grad == old(arena.grad) && arena.rules == old(arena.rules)
      ensures forall k :: 0 <= k < |gradAccums| ==> gradAccums[k] >= old(gradAccums[k])
      ensures var accums := AdaGradAccums(old(gradAccums), values, arena.grad);
              var steps := ScaledSteps(num, learningRate, accums, values, arena.grad);
              var n := FirstErr(steps);
              (raised.Some? <==> n < |values|) &&
              (raised.Some? ==> raised.value == ZeroDivisionError) &&
              gradAccums == Renewed(accums, old(gradAccums), n + 1) &&
              arena.data == Descend(old(arena.data), values, steps[..n])
    {
      var accums := AdaGradAccums(gradAccums, values, arena.grad);
      AdaGradAccumsGrow(gradAccums, values, arena.grad);
      var n;
      raised, n := Pass(arena, values, ScaledSteps(num, learningRate, accums, values, arena.grad));
      RenewedGrows(accums, gradAccums, n + 1);
      gradAccums := Renewed(accums, gradAccums, n + 1);
    }

    /** `step(loss)`. When backward raises, neither `data` nor the
        accumulators change; otherwise the update runs on the gradients
        backward left. */
    method Step(arena: Arena, num: Numerics, loss: NodeId) returns (raised: Option<Error>)
      requires Valid() && arena.Valid() && Within(arena.data, values) && loss < |arena.data|
      modifies this, arena
      ensures Valid() && arena.Valid() && arena.rules == old(arena.rules)
      ensures forall k :: 0 <= k < |gradAccums| ==> gradAccums[k] >= old(gradAccums[k])
      ensures !AllDifferentiable(old(arena.Snapshot(num)), Descendants(old(arena.Snapshot(num)), loss)) ==>
                raised.Some? && arena.data == old(arena.data) && gradAccums == old(gradAccums)
      ensures AllDifferentiable(old(arena.Snapshot(num)), Descendants(old(arena.Snapshot(num)), loss)) ==>
                arena.grad == BackwardSpec(old(arena.Snapshot(num)), loss, Seeded(old(arena.grad), values, loss)).grad &&
                var accums := AdaGradAccums(old(gradAccums), values, arena.grad);
                var steps := ScaledSteps(num, learningRate, accums, values, arena.grad);
                var n := FirstErr(steps);
                (raised.Some? <==> n < |values|) &&
                gradAccums == Renewed(accums, old(gradAccums), n + 1) &&
                arena.data == Descend(old(arena.data), values, steps[..n])
    {
      ghost var g := arena.Snapshot(num);
      raised := Prepare(arena, num, values, loss);
      assert arena.Snapshot(num) == g;
      if raised == None {
        ghost var backwardGrad := arena.grad;
        raised := UpdateGrads(arena, num);
        assert arena.grad == backwardGrad;
      }
    }
  }

  /** RmsPropOptimizer: the Momentum constructor (a coefficient and zeroed
      accumulators), AdaGrad's step, and a moving average of `grad ** 2`. */
  class RmsProp {
    const values: seq<NodeId>
    const learningRate: real
    const momentumCoef: real
    var gradAccums: seq<real>

    ghost predicate Valid()
      reads this
    {
      |gradAccums| == |values|
    }

    constructor (params: seq<seq<NodeId>>, learningRate: real, momentumCoef: real)
      ensures Valid() && values == Flatten(params)
      ensures this.learningRate == learningRate && this.momentumCoef == momentumCoef
      ensures gradAccums == Repeat(0.0, |values|)
    {
      values := Flatten(params);
      this.learningRate := learningRate;
      this.momentumCoef := momentumCoef;
      gradAccums := Repeat(0.0, |Flatten(params)|);
    }

    /** `acc = β·acc + (1-β)·grad ** 2`, then
        `data -= lr * grad / (acc + EPSILON) ** 0.5`, value by value,
        stopping at the first division by zero. */
    method UpdateGrads(arena: Arena, num: Numerics) returns (raised: Option<Error>)
      requires Valid() && arena.Valid() && Within(arena.data, values)
      modifies this, arena
      ensures Valid() && arena.Valid() && arena.grad == old(arena.grad) && arena.rules == old(arena.rules)
      ensures var accums := RmsPropAccums(momentumCoef, old(gradAccums), values, arena.grad);
              var steps := ScaledSteps(num, learningRate, accums, values, arena.grad);
              var n := FirstErr(steps);
              (raised.Some? <==> n < |values|) &&
              (raised.Some? ==> raised.value == ZeroDivisionError) &&
              gradAccums == Renewed(accums, old(gradAccums), n + 1) &&
              arena.data == Descend(old(arena.data), values, steps[..n])
    {
      var accums := RmsPropAccums(momentumCoef, gradAccums, values, arena.grad);
      var n;
      raised, n := Pass(arena, values, ScaledSteps(num, learningRate, accums, values, arena.grad));
      gradAccums := Renewed(accums, gradAccums, n + 1);
    }

    /** `step(loss)`. When backward raises, neither `data` nor the
        accumulators change; otherwise the update runs on the gradients
        backward left. */
    method Step(arena: Arena, num: Numerics, loss: NodeId) returns (raised: Option<Error>)
      requires Valid() && arena.Valid() && Within(arena.data, values) && loss < |arena.data|
      modifies this, arena
      ensures Valid() && arena.Valid() && arena.rules == old(arena.rules)
      ensures !AllDifferentiable(old(arena.Snapshot(num)), Descendants(old(arena.Snapshot(num)), loss)) ==>
                raised.Some? && arena.data == old(arena.data) && gradAccums == old(gradAccums)
      ensures AllDifferentiable(old(arena.Snapshot(num)), Descendants(old(arena.Snapshot(num)), loss)) ==>
                arena.grad == BackwardSpec(old(arena.Snapshot(num)), loss, Seeded(old(arena.grad), values, loss)).grad &&
                var accums := RmsPropAccums(momentumCoef, old(gradAccums), values, arena.grad);
                var steps := ScaledSteps(num, learningRate, accums, values, arena.grad);
                var n := FirstErr(steps);
                (raised.Some? <==> n < |values|) &&
                gradAccums == Renewed(accums, old(gradAccums), n + 1) &&
                arena.data == Descend(old(arena.data), values, steps[..n])
    {
      ghost var g := arena.Snapshot(num);
      raised := Prepare(arena, num, values, loss);
      assert arena.Snapshot(num) == g;
      if raised == None {
        ghost var backwardGrad := arena.grad;
        raised := UpdateGrads(arena, num);
        assert arena.grad == backwardGrad;
      }
    }
  }

  // ---------------------------------------------------------------------------
  // AdamOptimizer
  // ---------------------------------------------------------------------------

  /** Adam's step for one value at step `time`: the bias-corrected moments
      `m_norm = acc1 / (1 - β1 ** time)` and `v_norm = acc2 / (1 - β2 ** time)`,
      then `lr * m_norm / (v_norm ** 0.5 + EPSILON)`; each division by zero
      raises. */
  function AdamStep(num: Numerics, lr: real, beta1: real, beta2: real, time: nat, acc1: real, acc2: real): (r: Result<real>)
    ensures Power(beta1, time) == 1.0 || Power(beta2, time) == 1.0 ==> r == Err(ZeroDivisionError)
    ensures r.Err? ==> r.error == ZeroDivisionError
    ensures Power(beta1, time) != 1.0 && Power(beta2, time) != 1.0 ==>
              r == Div(Times(lr, acc1 / (1.0 - Power(beta1, time))), Sqrt(num, acc2 / (1.0 - Power(beta2, time))) + Eps)
  {
    var mNorm :- Div(acc1, 1.0 - Power(beta1, time));
    var vNorm :- Div(acc2, 1.0 - Power(beta2, time));
    Div(Times(lr, mNorm), Sqrt(num, vNorm) + Eps)
  }

  function AdamSteps(num: Numerics, lr: real, beta1: real, beta2: real, time: nat, accums1: seq<real>, accums2: seq<real>): (r: seq<Result<real>>)
    requires |accums1| == |accums2|
    ensures |r| == |accums1|
    ensures forall k :: 0 <= k < |r| ==> r[k] == AdamStep(num, lr, beta1, beta2, time, accums1[k], accums2[k])
  {
    seq(|accums1|, k requires 0 <= k < |accums1| => AdamStep(num, lr, beta1, beta2, time, accums1[k], accums2[k]))
  }

  /** On the first step, from zeroed accumulators, the bias correction
      undoes the averaging: `m_norm` is the gradient whenever `β1 ≠ 1`, and
      `v_norm` its square whenever `β2 ≠ 1`. */
  lemma AdamFirstStepUnbiased(beta1: real, beta2: real, values: seq<NodeId>, grad: seq<real>)
    requires Within(grad, values)
    ensures var zeros := Repeat(0.0, |values|);
            forall k :: 0 <= k < |values| ==>
              (beta1 != 1.0 ==> Div(MomentumAccums(beta1, zeros, values, grad)[k], 1.0 - Power(beta1, 1)) == Ok(grad[values[k]])) &&
              (beta2 != 1.0 ==> Div(RmsPropAccums(beta2, zeros, values, grad)[k], 1.0 - Power(beta2, 1)) ==
                                  Ok(Times(grad[values[k]], grad[values[k]])))
  {
    var zeros := Repeat(0.0, |values|);
    forall k | 0 <= k < |values|
      ensures beta1 != 1.0 ==> Div(MomentumAccums(beta1, zeros, values, grad)[k], 1.0 - Power(beta1, 1)) == Ok(grad[values[k]])
      ensures beta2 != 1.0 ==> Div(RmsPropAccums(beta2, zeros, values, grad)[k], 1.0 - Power(beta2, 1)) ==
                                 Ok(Times(grad[values[k]], grad[values[k]]))
    {
      var g := grad[values[k]];
      assert Power(beta1, 1) == beta1 && Power(beta2, 1) == beta2;
      assert MomentumAccums(beta1, zeros, values, grad)[k] == Times(1.0 - beta1, g);
      assert RmsPropAccums(beta2, zeros, values, grad)[k] == Times(1.0 - beta2, Times(g, g));
      if beta1 != 1.0 {
        CancelFactor(1.0 - beta1, g);
      }
      if beta2 != 1.0 {
        CancelFactor(1.0 - beta2, Times(g, g));
      }
    }
  }

  lemma CancelFactor(d: real, x: real)
    requires d != 0.0
    ensures Div(Times(d, x), d) == Ok(x)
  {
    assert (d * x) / d == x;
  }

  class Adam {
    const values: seq<NodeId>
    const learningRate: real
    const momentumCoef1: real
    const momentumCoef2: real
    var gradAccums1: seq<real>
    var gradAccums2: seq<real>
    var time: nat

    ghost predicate Valid()
      reads this
    {
      |gradAccums1| == |values| && |gradAccums2| == |values| && time >= 1
    }

    /** Two zeroed accumulators per tracked value; `time` starts at 1. */
    constructor (params: seq<seq<NodeId>>, learningRate: real, momentumCoef1: real, momentumCoef2: real)
      ensures Valid() && values == Flatten(params) && this.learningRate == learningRate
      ensures this.momentumCoef1 == momentumCoef1 && this.momentumCoef2 == momentumCoef2
      ensures gradAccums1 == Repeat(0.0, |values|) && gradAccums2 == Repeat(0.0, |values|) && time == 1
    {
      values := Flatten(params);
      this.learningRate := learningRate;
      this.momentumCoef1 := momentumCoef1;
      this.momentumCoef2 := momentumCoef2;
      gradAccums1 := Repeat(0.0, |Flatten(params)|);
      gradAccums2 := Repeat(0.0, |Flatten(params)|);
      time := 1;
    }

    /** Both moving averages, then `data -= lr * m_norm / (v_norm ** 0.5 +
        EPSILON)`, value by value, stopping at the first division by zero;
        `time` goes up by one once every value is updated. */
    method UpdateGrads(arena: Arena, num: Numerics) returns (raised: Option<Error>)
      requires Valid() && arena.Valid() && Within(arena.data, values)
      modifies this, arena
      ensures Valid() && arena.Valid() && arena.grad == old(arena.grad) && arena.rules == old(arena.rules)
      ensures time == if raised == None then old(time) + 1 else old(time)
      ensures var accums1 := MomentumAccums(momentumCoef1, old(gradAccums1), values, arena.grad);
              var accums2 := RmsPropAccums(momentumCoef2, old(gradAccums2), values, arena.grad);
              var steps := AdamSteps(num, learningRate, momentumCoef1, momentumCoef2, old(time), accums1, accums2);
              var n := FirstErr(steps);
              (raised.Some? <==> n < |values|) &&
              (raised.Some? ==> raised.value == ZeroDivisionError) &&
              gradAccums1 == Renewed(accums1, old(gradAccums1), n + 1) &&
              gradAccums2 == Renewed(accums2, old(gradAccums2), n + 1) &&
              arena.data == Descend(old(arena.data), values, steps[..n])
    {
      var accums1 := MomentumAccums(momentumCoef1, gradAccums1, values, arena.grad);
      var accums2 := RmsPropAccums(momentumCoef2, gradAccums2, values, arena.grad);
      var n;
      var steps := AdamSteps(num, learningRate, momentumCoef1, momentumCoef2, time, accums1, accums2);
      raised, n := Pass(arena, values, steps);
      assert n == FirstErr(steps);
      if raised.Some? {
        assert steps[n] == AdamStep(num, learningRate, momentumCoef1, momentumCoef2, time, accums1[n], accums2[n]);
      }
      gradAccums1 := Renewed(accums1, gradAccums1, n + 1);
      gradAccums2 := Renewed(accums2, gradAccums2, n + 1);
      if raised == None {
        time := time + 1;
      }
    }

    /** `step(loss)`. When backward raises, neither `data`, the
        accumulators nor `time` change. */
    method Step(arena: Arena, num: Numerics, loss: NodeId) returns (raised: Option<Error>)
      requires Valid() && arena.Valid() && Within(arena.data, values) && loss < |arena.data|
      modifies this, arena
      ensures Valid() && arena.Valid() && arena.rules == old(arena.rules)
      ensures time == if raised == None then old(time) + 1 else old(time)
      ensures !AllDifferentiable(old(arena.Snapshot(num)), Descendants(old(arena.Snapshot(num)), loss)) ==>
                raised.Some? && arena.data == old(arena.data) &&
                gradAccums1 == old(gradAccums1) && gradAccums2 == old(gradAccums2)
      ensures AllDifferentiable(old(arena.Snapshot(num)), Descendants(old(arena.Snapshot(num)), loss)) ==>
                arena.grad == BackwardSpec(old(arena.Snapshot(num)), loss, Seeded(old(arena.grad), values, loss)).grad &&
                var accums1 := MomentumAccums(momentumCoef1, old(gradAccums1), values, arena.grad);
                var accums2 := RmsPropAccums(momentumCoef2, old(gradAccums2), values, arena.grad);
                var steps := AdamSteps(num, learningRate, momentumCoef1, momentumCoef2, old(time), accums1, accums2);
                var n := FirstErr(steps);
                (raised.Some? <==> n < |values|) &&
                gradAccums1 == Renewed(accums1, old(gradAccums1), n + 1) &&
                gradAccums2 == Renewed(accums2, old(gradAccums2), n + 1) &&
                arena.data == Descend(old(arena.data), values, steps[..n])
    {
      ghost var g := arena.Snapshot(num);
      raised := Prepare(arena, num, values, loss);
      assert arena.Snapshot(num) == g;
      if raised == None {
        ghost var backwardGrad := arena.grad;
        raised := UpdateGrads(arena, num);
        assert arena.grad == backwardGrad;
      }
    }
  }

  /** The first step that raises is at `k` when every step before it is
      fine. */
  lemma {:induction false} FirstErrAt(steps: seq<Result<real>>, k: nat)
    requires k < |steps| && steps[k].Err? && forall i :: 0 <= i < k ==> steps[i].Ok?
    ensures FirstErr(steps) == k
  {
    if k > 0 {
      FirstErrAt(steps[1..], k - 1);
    }
  }

  lemma {:induction false} FirstErrNone(steps: seq<Result<real>>)
    requires forall i :: 0 <= i < |steps| ==> steps[i].Ok?
    ensures FirstErr(steps) == |steps|
  {
    if steps != [] {
      FirstErrNone(steps[1..]);
    }
  }
}
