/** What the backward pass gives on small graphs, and what resetting the
    gradients before it guarantees. */
module Scenarios {
  import opened Common
  import opened Calculus
  import opened Backprop
  import Optimizers

  // ---------------------------------------------------------------------------
  // Resetting the gradients

  /** The gradients after `zero_grad` on every descendant of `v` and seeding
      `v.grad = 1`; other nodes keep theirs. */
  ghost function Reset(g: Graph, v: NodeId, grad: seq<real>): (r: seq<real>)
    requires Valid(g) && v < |g.rules| && |grad| == |g.rules|
    ensures |r| == |grad| && r[v] == 1.0
    ensures forall d :: 0 <= d < |r| && d != v ==> r[d] == if d in Descendants(g, v) then 0.0 else grad[d]
  {
    seq(|grad|, i requires 0 <= i < |grad| => if i == v then 1.0 else if i in Descendants(g, v) then 0.0 else grad[i])
  }

  /** The backward pass changes no gradient outside the descendants of `v`. */
  lemma BackwardSpecFrame(g: Graph, v: NodeId, grad: seq<real>, d: NodeId)
    requires Valid(g) && v < |g.rules| && |grad| == |g.rules| && d < |g.rules|
    requires d !in Descendants(g, v)
    ensures BackwardSpec(g, v, grad).grad[d] == grad[d]
  {
    var ord := Descending(Descendants(g, v), |g.rules|);
    DescendingOrderOf(g, v);
    forall i | 0 <= i < |ord|
      ensures d !in Children(g, ord[i])
    {
      if d in Children(g, ord[i]) {
        DescendantsClosed(g, v, ord[i], d);
      }
    }
    PropagateFrame(g, ord, grad, d);
  }

  /** Gradients that agree on a set closed under children, propagated along
      an order inside that set, stay in agreement on it. */
  lemma {:induction false} StepFromLocal(g: Graph, c: NodeId, outGrad: real, g1: seq<real>, g2: seq<real>,
                                         k: nat, s: set<NodeId>)
    requires Valid(g) && c < |g.rules| && |g1| == |g2| == |g.rules| && k <= |InVars(g, c)|
    requires Children(g, c) <= s && forall d :: d in s && d < |g1| ==> g1[d] == g2[d]
    ensures StepFrom(g, c, outGrad, g1, k).raised == StepFrom(g, c, outGrad, g2, k).raised
    ensures forall d :: d in s && d < |g1| ==>
              StepFrom(g, c, outGrad, g1, k).grad[d] == StepFrom(g, c, outGrad, g2, k).grad[d]
    decreases |InVars(g, c)| - k
  {
    if k < |InVars(g, c)| {
      if InVars(g, c)[k].Const? {
        StepFromLocal(g, c, outGrad, g1, g2, k + 1, s);
      } else {
        var id := InVars(g, c)[k].id;
        assert id in Children(g, c);
        match PartialAt(g, c, k)
        case Err(e) =>
        case Ok(p) =>
          StepFromLocal(g, c, outGrad, g1[id := g1[id] + Times(outGrad, p)], g2[id := g2[id] + Times(outGrad, p)], k + 1, s);
      }
    }
  }

  lemma {:induction false} PropagateLocal(g: Graph, ord: seq<NodeId>, g1: seq<real>, g2: seq<real>, s: set<NodeId>)
    requires Valid(g) && InGraph(g, ord) && |g1| == |g2| == |g.rules|
    requires forall i :: 0 <= i < |ord| ==> ord[i] in s && Children(g, ord[i]) <= s
    requires forall d :: d in s && d < |g1| ==> g1[d] == g2[d]
    ensures Propagate(g, ord, g1).raised == Propagate(g, ord, g2).raised
    ensures forall d :: d in s && d < |g1| ==> Propagate(g, ord, g1).grad[d] == Propagate(g, ord, g2).grad[d]
  {
    if ord != [] {
      var c := ord[0];
      StepFromLocal(g, c, g1[c], g1, g2, 0, s);
      assert g1[c] == g2[c];
      var o1, o2 := Step(g, c, g1), Step(g, c, g2);
      if o1.raised.None? {
        PropagateLocal(g, ord[1..], o1.grad, o2.grad, s);
      }
    }
  }

  /** The backward pass from `v` reads and writes only the gradients of the
      descendants of `v`: two gradient lists that agree there give the
      same outcome there. */
  lemma BackwardSpecLocal(g: Graph, v: NodeId, grad1: seq<real>, grad2: seq<real>)
    requires Valid(g) && v < |g.rules| && |grad1| == |grad2| == |g.rules|
    requires forall d :: d in Descendants(g, v) && d < |g.rules| ==> grad1[d] == grad2[d]
    ensures BackwardSpec(g, v, grad1).raised == BackwardSpec(g, v, grad2).raised
    ensures forall d :: d in Descendants(g, v) && d < |g.rules| ==>
              BackwardSpec(g, v, grad1).grad[d] == BackwardSpec(g, v, grad2).grad[d]
  {
    var D := Descendants(g, v);
    var ord := Descending(D, |g.rules|);
    DescendingOrderOf(g, v);
    forall i | 0 <= i < |ord|
      ensures ord[i] in D && Children(g, ord[i]) <= D
    {
      assert ord[i] in Elems(ord);
      forall x | x in Children(g, ord[i])
        ensures x in D
      {
        DescendantsClosed(g, v, ord[i], x);
      }
    }
    forall d | d in D
      ensures d < |g.rules|
    {
      DescendantsBelow(g, v, d);
    }
    PropagateLocal(g, ord, grad1, grad2, D);
  }

  /** After a reset, the backward pass gives the descendants the same
      gradients whatever they held before: no residue of an earlier pass. */
  lemma ResetForgetsHistory(g: Graph, v: NodeId, grad1: seq<real>, grad2: seq<real>)
    requires Valid(g) && v < |g.rules| && |grad1| == |grad2| == |g.rules|
    ensures BackwardSpec(g, v, Reset(g, v, grad1)).raised == BackwardSpec(g, v, Reset(g, v, grad2)).raised
    ensures forall d :: d in Descendants(g, v) && d < |g.rules| ==>
              BackwardSpec(g, v, Reset(g, v, grad1)).grad[d] == BackwardSpec(g, v, Reset(g, v, grad2)).grad[d]
  {
    BackwardSpecLocal(g, v, Reset(g, v, grad1), Reset(g, v, grad2));
  }

  /** What `step` does before `backward()` zeroes only the tracked values
      (`Optimizers.Seeded`). When every untracked descendant of the loss
      holds gradient 0, as after a fresh forward pass, the backward pass
      then has the outcome it has after `Reset`. */
  lemma SeededMeetsReset(g: Graph, v: NodeId, grad: seq<real>, values: seq<NodeId>)
    requires Valid(g) && v < |g.rules| && |grad| == |g.rules|
    requires forall d :: d in Descendants(g, v) && d < |grad| && d !in values ==> grad[d] == 0.0
    ensures BackwardSpec(g, v, Optimizers.Seeded(grad, values, v)).raised == BackwardSpec(g, v, Reset(g, v, grad)).raised
    ensures forall d :: d in Descendants(g, v) && d < |g.rules| ==>
              BackwardSpec(g, v, Optimizers.Seeded(grad, values, v)).grad[d] == BackwardSpec(g, v, Reset(g, v, grad)).grad[d]
  {
    var seeded, reset := Optimizers.Seeded(grad, values, v), Reset(g, v, grad);
    forall d | d in Descendants(g, v) && d < |g.rules|
      ensures seeded[d] == reset[d]
    {
    }
    BackwardSpecLocal(g, v, seeded, reset);
  }

  /** Reset, backward, then reset and backward again without a new forward
      pass: the second pass gives exactly what the first gave. */
  lemma ResetIdempotent(g: Graph, v: NodeId, grad: seq<real>)
    requires Valid(g) && v < |g.rules| && |grad| == |g.rules|
    ensures var first := BackwardSpec(g, v, Reset(g, v, grad));
            BackwardSpec(g, v, Reset(g, v, first.grad)) == first
  {
    var first := BackwardSpec(g, v, Reset(g, v, grad));
    forall d | 0 <= d < |grad| && d !in Descendants(g, v)
      ensures first.grad[d] == grad[d]
    {
      BackwardSpecFrame(g, v, Reset(g, v, grad), d);
    }
    assert v in Descendants(g, v);
    assert Reset(g, v, first.grad) == Reset(g, v, grad);
  }

  // ---------------------------------------------------------------------------
  // Small graphs, with the sink seeded to 1 and every other gradient 0

  lemma LeafDescendants(g: Graph, v: NodeId)
    requires Valid(g) && v < |g.rules| && g.rules[v].Leaf?
    ensures Descendants(g, v) == {v}
  {
    assert Children(g, v) == {};
  }

  /** A leaf's `_backward` changes nothing. */
  lemma LeafStep(g: Graph, v: NodeId, grad: seq<real>)
    requires Valid(g) && v < |g.rules| && |grad| == |g.rules| && g.rules[v].Leaf?
    ensures Step(g, v, grad) == Outcome(grad, None)
  {
  }

  lemma PairChildren(g: Graph, c: NodeId, a: NodeId, b: NodeId)
    requires Valid(g) && c < |g.rules| && g.rules[c].Applied? && g.rules[c].inVars == [Ref(a), Ref(b)]
    ensures a < c && b < c && Children(g, c) == {a} + {b}
  {
    assert InVars(g, c)[0].id == a && InVars(g, c)[1].id == b;
  }

  lemma PairDescendants(g: Graph, c: NodeId, a: NodeId, b: NodeId)
    requires Valid(g) && c < |g.rules| && g.rules[c].Applied? && g.rules[c].inVars == [Ref(a), Ref(b)]
    ensures a < c && b < c
    ensures Descendants(g, c) == {c} + (Descendants(g, a) + Descendants(g, b))
  {
    PairChildren(g, c, a, b);
    var ab := {a} + {b};
    DescendantsUnfold(g, c);
    assert Descendants(g, c) == {c} + DescendantsOfAll(g, ab);
    DescendantsOfAllAddOne(g, {a}, b);
    DescendantsOfOne(g, a);
    assert DescendantsOfAll(g, ab) == Descendants(g, a) + Descendants(g, b);
  }

  lemma DescendantsOfOne(g: Graph, a: NodeId)
    requires Valid(g) && a < |g.rules|
    ensures DescendantsOfAll(g, {a}) == Descendants(g, a)
  {
  }

  /** `_backward` of a two-operand node whose partials do not raise: each
      operand in turn gets the output gradient times its partial. */
  lemma PairStep(g: Graph, c: NodeId, a: NodeId, b: NodeId, grad: seq<real>, p: real, q: real)
    requires Valid(g) && c < |g.rules| && |grad| == |g.rules|
    requires g.rules[c].Applied? && g.rules[c].inVars == [Ref(a), Ref(b)]
    requires PartialAt(g, c, 0) == Ok(p) && PartialAt(g, c, 1) == Ok(q)
    ensures a < c && b < c
    ensures var once := grad[a := grad[a] + Times(grad[c], p)];
            Step(g, c, grad) == Outcome(once[b := once[b] + Times(grad[c], q)], None)
  {
    var once := grad[a := grad[a] + Times(grad[c], p)];
    var twice := once[b := once[b] + Times(grad[c], q)];
    assert StepFrom(g, c, grad[c], twice, 2) == Outcome(twice, None);
    assert StepFrom(g, c, grad[c], once, 1) == Outcome(twice, None);
  }

  /** When every node lies below the sink `v`, the reference backward pass
      visits every node, highest first. */
  lemma EverythingBelow(g: Graph, v: NodeId, grad: seq<real>)
    requires Valid(g) && v < |g.rules| && |grad| == |g.rules|
    requires forall i :: 0 <= i < |g.rules| ==> i in Descendants(g, v)
    ensures BackwardSpec(g, v, grad) == Propagate(g, Reverse(Range(|g.rules|)), grad)
  {
    DescendingFull(Descendants(g, v), |g.rules|);
  }

  lemma {:induction false} DescendingFull(s: set<NodeId>, n: nat)
    requires forall i :: 0 <= i < n ==> i in s
    ensures Descending(s, n) == Reverse(Range(n))
  {
    if n > 0 {
      DescendingFull(s, n - 1);
      assert Range(n) == Range(n - 1) + [n - 1];
      ReverseAppend(Range(n - 1), n - 1);
    }
  }

  lemma ReverseAppend(s: seq<NodeId>, x: NodeId)
    ensures Reverse(s + [x]) == [x] + Reverse(s)
  {
  }

  function SumGraph(num: Numerics, x: real, y: real): Graph
  {
    Graph(num, [Leaf, Leaf, Applied(Add, [Ref(0), Ref(1)])], [x, y, x + y])
  }

  function ProductGraph(num: Numerics, x: real, y: real): Graph
  {
    Graph(num, [Leaf, Leaf, Applied(Mul, [Ref(0), Ref(1)])], [x, y, x * y])
  }

  function ChainGraph(num: Numerics, x: real, y: real): Graph
  {
    Graph(num, [Leaf, Leaf, Applied(Mul, [Ref(0), Ref(1)]), Applied(Add, [Ref(2), Ref(0)])],
          [x, y, x * y, x * y + x])
  }

  function SquareGraph(num: Numerics, x: real): Graph
  {
    Graph(num, [Leaf, Applied(Mul, [Ref(0), Ref(0)])], [x, x * x])
  }

  lemma SumBelow(num: Numerics, x: real, y: real)
    ensures Valid(SumGraph(num, x, y)) && forall i :: 0 <= i < 3 ==> i in Descendants(SumGraph(num, x, y), 2)
  {
    var g := SumGraph(num, x, y);
    PairBelow(g, 2, 0, 1);
    ThreeBelow(g, 2);
  }

  lemma ProductBelow(num: Numerics, x: real, y: real)
    ensures Valid(ProductGraph(num, x, y)) && forall i :: 0 <= i < 3 ==> i in Descendants(ProductGraph(num, x, y), 2)
  {
    var g := ProductGraph(num, x, y);
    PairBelow(g, 2, 0, 1);
    ThreeBelow(g, 2);
  }

  lemma ChainBelow(num: Numerics, x: real, y: real)
    ensures Valid(ChainGraph(num, x, y)) && forall i :: 0 <= i < 4 ==> i in Descendants(ChainGraph(num, x, y), 3)
  {
    var g := ChainGraph(num, x, y);
    PairBelow(g, 3, 2, 0);
    PairChildren(g, 2, 0, 1);
    DescendantsClosed(g, 3, 2, 1);
    ThreeBelow(g, 3);
    forall i | 0 <= i < 4
      ensures i in Descendants(g, 3)
    {
      assert i < 3 || i == 3;
    }
  }

  lemma SquareBelow(num: Numerics, x: real)
    ensures Valid(SquareGraph(num, x)) && forall i :: 0 <= i < 2 ==> i in Descendants(SquareGraph(num, x), 1)
  {
    var g := SquareGraph(num, x);
    PairBelow(g, 1, 0, 0);
    forall i | 0 <= i < 2
      ensures i in Descendants(g, 1)
    {
      assert i == 0 || i == 1;
    }
  }

  lemma ThreeBelow(g: Graph, v: NodeId)
    requires Valid(g) && v < |g.rules|
    requires 0 in Descendants(g, v) && 1 in Descendants(g, v) && 2 in Descendants(g, v)
    ensures forall i :: 0 <= i < 3 ==> i in Descendants(g, v)
  {
    forall i | 0 <= i < 3
      ensures i in Descendants(g, v)
    {
      assert i == 0 || i == 1 || i == 2;
    }
  }

  /** Both operands of a two-operand node `c` lie below it. */
  lemma PairBelow(g: Graph, c: NodeId, a: NodeId, b: NodeId)
    requires Valid(g) && c < |g.rules| && g.rules[c].Applied? && g.rules[c].inVars == [Ref(a), Ref(b)]
    ensures a < c && b < c && c in Descendants(g, c)
    ensures a in Descendants(g, c) && b in Descendants(g, c)
  {
    PairChildren(g, c, a, b);
    assert c in Descendants(g, c);
    DescendantsClosed(g, c, c, a);
    DescendantsClosed(g, c, c, b);
  }

  /** `c = a + b`: both operands get gradient 1. */
  lemma SumGradients(num: Numerics, x: real, y: real)
    ensures Valid(SumGraph(num, x, y))
    ensures BackwardSpec(SumGraph(num, x, y), 2, [0.0, 0.0, 1.0]) == Outcome([1.0, 1.0, 1.0], None)
  {
    var g := SumGraph(num, x, y);
    SumBelow(num, x, y);
    EverythingBelow(g, 2, [0.0, 0.0, 1.0]);
    assert Reverse(Range(3)) == [2, 1, 0];
    assert PartialAt(g, 2, 0) == Ok(1.0) && PartialAt(g, 2, 1) == Ok(1.0);
    PairStep(g, 2, 0, 1, [0.0, 0.0, 1.0], 1.0, 1.0);
    var after := Step(g, 2, [0.0, 0.0, 1.0]);
    assert after == Outcome([1.0, 1.0, 1.0], None);
    LeafStep(g, 1, after.grad);
    LeafStep(g, 0, after.grad);
    assert [2, 1, 0][1..] == [1, 0] && [1, 0][1..] == [0];
    assert Propagate(g, [0], after.grad) == after;
    assert Propagate(g, [1, 0], after.grad) == after;
  }

  /** `c = a * b`: each operand's gradient is the other's data. */
  lemma ProductGradients(num: Numerics, x: real, y: real)
    ensures Valid(ProductGraph(num, x, y))
    ensures BackwardSpec(ProductGraph(num, x, y), 2, [0.0, 0.0, 1.0]) == Outcome([y, x, 1.0], None)
  {
    var g := ProductGraph(num, x, y);
    ProductBelow(num, x, y);
    EverythingBelow(g, 2, [0.0, 0.0, 1.0]);
    assert Reverse(Range(3)) == [2, 1, 0];
    assert PartialAt(g, 2, 0) == Ok(y) && PartialAt(g, 2, 1) == Ok(x);
    PairStep(g, 2, 0, 1, [0.0, 0.0, 1.0], y, x);
    var after := Step(g, 2, [0.0, 0.0, 1.0]);
    assert after == Outcome([y, x, 1.0], None);
    LeafStep(g, 1, after.grad);
    LeafStep(g, 0, after.grad);
    assert [2, 1, 0][1..] == [1, 0] && [1, 0][1..] == [0];
    assert Propagate(g, [0], after.grad) == after;
    assert Propagate(g, [1, 0], after.grad) == after;
  }

  /** After the sum's step, the product hands `b.data` to `a` and `a.data`
      to `b`, and the two leaves pass on nothing. */
  lemma ChainTail(num: Numerics, x: real, y: real)
    requires Valid(ChainGraph(num, x, y))
    ensures Propagate(ChainGraph(num, x, y), [2, 1, 0], [1.0, 0.0, 1.0, 1.0]) == Outcome([y + 1.0, x, 1.0, 1.0], None)
  {
    var g := ChainGraph(num, x, y);
    assert PartialAt(g, 2, 0) == Ok(y) && PartialAt(g, 2, 1) == Ok(x);
    PairStep(g, 2, 0, 1, [1.0, 0.0, 1.0, 1.0], y, x);
    var afterProduct := Step(g, 2, [1.0, 0.0, 1.0, 1.0]);
    assert afterProduct == Outcome([y + 1.0, x, 1.0, 1.0], None);
    LeafStep(g, 1, afterProduct.grad);
    LeafStep(g, 0, afterProduct.grad);
    assert [2, 1, 0][1..] == [1, 0] && [1, 0][1..] == [0];
    assert Propagate(g, [0], afterProduct.grad) == afterProduct;
    assert Propagate(g, [1, 0], afterProduct.grad) == afterProduct;
  }

  /** `d = a * b + a`: `a` gets `b.data + 1`, one contribution per path. */
  lemma ChainGradients(num: Numerics, x: real, y: real)
    ensures Valid(ChainGraph(num, x, y))
    ensures BackwardSpec(ChainGraph(num, x, y), 3, [0.0, 0.0, 0.0, 1.0]) == Outcome([y + 1.0, x, 1.0, 1.0], None)
  {
    var g := ChainGraph(num, x, y);
    ChainBelow(num, x, y);
    EverythingBelow(g, 3, [0.0, 0.0, 0.0, 1.0]);
    assert Reverse(Range(4)) == [3, 2, 1, 0];
    assert PartialAt(g, 3, 0) == Ok(1.0) && PartialAt(g, 3, 1) == Ok(1.0);
    PairStep(g, 3, 2, 0, [0.0, 0.0, 0.0, 1.0], 1.0, 1.0);
    var afterSum := Step(g, 3, [0.0, 0.0, 0.0, 1.0]);
    assert afterSum == Outcome([1.0, 0.0, 1.0, 1.0], None);
    ChainTail(num, x, y);
    assert [3, 2, 1, 0][1..] == [2, 1, 0];
  }

  /** `e = x * x`: with the positional dispatcher the two occurrences of `x`
      each contribute `x.data`, so `x.grad` is `2 * x.data`. */
  lemma SquareGradients(num: Numerics, x: real)
    ensures Valid(SquareGraph(num, x))
    ensures BackwardSpec(SquareGraph(num, x), 1, [0.0, 1.0]) == Outcome([2.0 * x, 1.0], None)
  {
    var g := SquareGraph(num, x);
    SquareBelow(num, x);
    EverythingBelow(g, 1, [0.0, 1.0]);
    assert Reverse(Range(2)) == [1, 0];
    assert PartialAt(g, 1, 0) == Ok(x) && PartialAt(g, 1, 1) == Ok(x);
    PairStep(g, 1, 0, 0, [0.0, 1.0], x, x);
    var after := Step(g, 1, [0.0, 1.0]);
    assert after == Outcome([2.0 * x, 1.0], None);
    LeafStep(g, 0, after.grad);
    assert [1, 0][1..] == [0];
    assert Propagate(g, [0], after.grad) == after;
  }
}
