/** What the backward pass of the scalar engines computes (lib/value.py and
    lib/fast/value.py share it): the graph of nodes, each node's
    `_backward` closure as a function on the gradients, propagation along an
    order, and the theorems that make every topological order give the same
    gradients, the ones the chain rule defines. */
module Backprop {
  import opened Common
  import opened Calculus

  /** How a node was made: a leaf (`Value(x)`), or an operation on `in_vars`. */
  datatype Rule = Leaf | Applied(op: Op, inVars: seq<Operand>)

  /** What the backward pass reads: node `i` holds `data[i]` and was made by
      `rules[i]`; `num` interprets exp, ln and non-integer powers. */
  datatype Graph = Graph(num: Numerics, rules: seq<Rule>, data: seq<real>)

  /** Every operation refers only to nodes created before its result: the
      graph is acyclic by construction. */
  predicate Acyclic(rules: seq<Rule>)
  {
    forall i :: 0 <= i < |rules| && rules[i].Applied? ==> RefsBelow(rules[i].inVars, i)
  }

  predicate Valid(g: Graph)
  {
    |g.rules| == |g.data| && Acyclic(g.rules)
  }

  /** The entries of a node's `in_vars` (none for a leaf). */
  function InVars(g: Graph, c: NodeId): (r: seq<Operand>)
    requires Valid(g) && c < |g.rules|
    ensures RefsBelow(r, c)
  {
    if g.rules[c].Applied? then g.rules[c].inVars else []
  }

  /** `children`: the nodes among `in_vars`. */
  function Children(g: Graph, c: NodeId): (r: set<NodeId>)
    requires Valid(g) && c < |g.rules|
    ensures forall d :: d in r ==> d < c
  {
    set k | 0 <= k < |InVars(g, c)| && InVars(g, c)[k].Ref? :: InVars(g, c)[k].id
  }

  /** `_get_all_descendats`: the node itself and everything reachable from it
      through `children`. */
  ghost function Descendants(g: Graph, v: NodeId): set<NodeId>
    requires Valid(g) && v < |g.rules|
    decreases v
  {
    {v} + (set c, d | c in Children(g, v) && d in Descendants(g, c) :: d)
  }

  lemma DescendantsBelow(g: Graph, v: NodeId, d: NodeId)
    requires Valid(g) && v < |g.rules| && d in Descendants(g, v)
    ensures d <= v
    decreases v
  {
    if d != v {
      var c :| c in Children(g, v) && d in Descendants(g, c);
      DescendantsBelow(g, c, d);
    }
  }

  /** Descendants are closed under `children`. */
  lemma {:induction false} DescendantsClosed(g: Graph, v: NodeId, d: NodeId, x: NodeId)
    requires Valid(g) && v < |g.rules| && d in Descendants(g, v)
    requires d < |g.rules| && x in Children(g, d)
    ensures x in Descendants(g, v)
    decreases v
  {
    if d == v {
      assert x in Descendants(g, x);
    } else {
      var c :| c in Children(g, v) && d in Descendants(g, c);
      DescendantsClosed(g, c, d, x);
    }
  }

  /** A node reachable from `v` has all its descendants among `v`'s. */
  lemma {:induction false} DescendantsTransitive(g: Graph, v: NodeId, d: NodeId)
    requires Valid(g) && v < |g.rules| && d in Descendants(g, v)
    ensures d < |g.rules| && Descendants(g, d) <= Descendants(g, v)
    decreases v
  {
    DescendantsBelow(g, v, d);
    if d != v {
      var c :| c in Children(g, v) && d in Descendants(g, c);
      DescendantsTransitive(g, c, d);
    }
  }

  /** Any set holding `v` and closed under `children` holds all of `v`'s
      descendants. */
  lemma {:induction false} DescendantsLeast(g: Graph, v: NodeId, s: set<NodeId>)
    requires Valid(g) && v < |g.rules| && v in s
    requires forall d :: d in s && d < |g.rules| ==> Children(g, d) <= s
    ensures Descendants(g, v) <= s
    decreases v
  {
    forall d | d in Descendants(g, v)
      ensures d in s
    {
      if d != v {
        var c :| c in Children(g, v) && d in Descendants(g, c);
        DescendantsLeast(g, c, s);
      }
    }
  }

  /** The descendants of every node of `cs`. */
  ghost function DescendantsOfAll(g: Graph, cs: set<NodeId>): set<NodeId>
    requires Valid(g) && forall c :: c in cs ==> c < |g.rules|
  {
    set c, d | c in cs && d in Descendants(g, c) :: d
  }

  lemma DescendantsUnfold(g: Graph, v: NodeId)
    requires Valid(g) && v < |g.rules|
    ensures Descendants(g, v) == {v} + DescendantsOfAll(g, Children(g, v))
  {
  }

  lemma DescendantsOfAllAddOne(g: Graph, cs: set<NodeId>, c: NodeId)
    requires Valid(g) && c < |g.rules| && forall x :: x in cs ==> x < |g.rules|
    ensures DescendantsOfAll(g, cs + {c}) == DescendantsOfAll(g, cs) + Descendants(g, c)
  {
  }

  /** The strict descendants of `x`: what `descendants_map[x]` starts as. */
  lemma ChildrenAreStrictDescendants(g: Graph, x: NodeId)
    requires Valid(g) && x < |g.rules|
    ensures Children(g, x) <= Descendants(g, x) - {x}
  {
    forall c | c in Children(g, x)
      ensures c in Descendants(g, x)
    {
      assert c in Descendants(g, c);
    }
  }

  // ---------------------------------------------------------------------------
  // One `_backward` call and the propagation along an order.

  /** The gradients after a step, and the exception it raised, if any. */
  datatype Outcome = Outcome(grad: seq<real>, raised: Option<Error>)

  /** The local partial of node `c` with respect to its operand at position `k`. */
  function PartialAt(g: Graph, c: NodeId, k: nat): Result<real>
    requires Valid(g) && c < |g.rules| && k < |InVars(g, c)| && InVars(g, c)[k].Ref?
  {
    LocalPartialAt(g.num, g.rules[c].op, g.rules[c].inVars, g.data, k)
  }

  /** The loop of `_backward` from position `k` on: every operand that is a
      node gets `outGrad` times its local partial added to its gradient; the
      first partial that raises stops the loop, leaving the earlier updates. */
  function StepFrom(g: Graph, c: NodeId, outGrad: real, grad: seq<real>, k: nat): (r: Outcome)
    requires Valid(g) && c < |g.rules| && |grad| == |g.rules| && k <= |InVars(g, c)|
    ensures |r.grad| == |grad|
    decreases |InVars(g, c)| - k
  {
    if k == |InVars(g, c)| then Outcome(grad, None)
    else if InVars(g, c)[k].Const? then StepFrom(g, c, outGrad, grad, k + 1)
    else
      var id := InVars(g, c)[k].id;
      match PartialAt(g, c, k)
      case Err(e) => Outcome(grad, Some(e))
      case Ok(p) => StepFrom(g, c, outGrad, grad[id := grad[id] + Times(outGrad, p)], k + 1)
  }

  /** `c._backward()`: the output gradient is read when the step runs. */
  function Step(g: Graph, c: NodeId, grad: seq<real>): (r: Outcome)
    requires Valid(g) && c < |g.rules| && |grad| == |g.rules|
    ensures |r.grad| == |grad|
  {
    StepFrom(g, c, grad[c], grad, 0)
  }

  /** The nodes an order visits. */
  function Elems(ord: seq<NodeId>): set<NodeId>
  {
    set d | d in ord
  }

  predicate InGraph(g: Graph, ord: seq<NodeId>)
  {
    forall i :: 0 <= i < |ord| ==> ord[i] < |g.rules|
  }

  /** Calling `_backward` on each node of `ord` in turn; an exception ends the pass. */
  function Propagate(g: Graph, ord: seq<NodeId>, grad: seq<real>): (r: Outcome)
    requires Valid(g) && InGraph(g, ord) && |grad| == |g.rules|
    ensures |r.grad| == |grad|
  {
    if ord == [] then Outcome(grad, None)
    else
      var o := Step(g, ord[0], grad);
      if o.raised.Some? then o else Propagate(g, ord[1..], o.grad)
  }

  /** No local partial of `c` raises. */
  predicate Differentiable(g: Graph, c: NodeId)
    requires Valid(g) && c < |g.rules|
  {
    forall k :: 0 <= k < |InVars(g, c)| && InVars(g, c)[k].Ref? ==> PartialAt(g, c, k).Ok?
  }

  /** Parents before children: no node of the order is a child of a later one. */
  predicate IsTopoOrder(g: Graph, ord: seq<NodeId>)
    requires Valid(g) && InGraph(g, ord)
  {
    forall i, j :: 0 <= i < j < |ord| ==> ord[i] !in Children(g, ord[j])
  }

  /** Children before parents: every node's children come earlier. */
  predicate ChildrenFirst(g: Graph, ord: seq<NodeId>)
    requires Valid(g) && InGraph(g, ord)
  {
    forall j :: 0 <= j < |ord| ==> Children(g, ord[j]) <= Elems(ord[..j])
  }

  function Reverse(s: seq<NodeId>): (r: seq<NodeId>)
    ensures |r| == |s| && forall i :: 0 <= i < |s| ==> r[i] == s[|s| - 1 - i]
  {
    if s == [] then [] else Reverse(s[1..]) + [s[0]]
  }

  /** `reversed` of a children-first order is a topological order of the same nodes. */
  lemma ReverseIsTopo(g: Graph, ord: seq<NodeId>)
    requires Valid(g) && InGraph(g, ord) && Distinct(ord) && ChildrenFirst(g, ord)
    ensures InGraph(g, Reverse(ord)) && Distinct(Reverse(ord)) && Elems(Reverse(ord)) == Elems(ord)
    ensures IsTopoOrder(g, Reverse(ord))
  {
    var r := Reverse(ord);
    var n := |ord|;
    forall d | d in Elems(ord)
      ensures d in Elems(r)
    {
      var i :| 0 <= i < n && ord[i] == d;
      assert r[n - 1 - i] == d;
    }
    forall i, j | 0 <= i < j < n
      ensures r[i] !in Children(g, r[j])
    {
      var a, b := n - 1 - j, n - 1 - i;
      assert r[j] == ord[a] && r[i] == ord[b];
    }
  }

  // ---------------------------------------------------------------------------
  // The effect of a step.

  /** The sum of the local partials of `c` at the positions from `k` on that
      hold `v`: how much one unit of `c`'s gradient adds to `v`'s. */
  function WeightFrom(g: Graph, c: NodeId, v: NodeId, k: nat): real
    requires Valid(g) && c < |g.rules| && k <= |InVars(g, c)|
    decreases |InVars(g, c)| - k
  {
    if k == |InVars(g, c)| then 0.0
    else
      var here := if InVars(g, c)[k] == Ref(v) && PartialAt(g, c, k).Ok? then PartialAt(g, c, k).value else 0.0;
      here + WeightFrom(g, c, v, k + 1)
  }

  function Weight(g: Graph, c: NodeId, v: NodeId): real
    requires Valid(g) && c < |g.rules|
  {
    WeightFrom(g, c, v, 0)
  }

  /** A node that is not a child of `c` gets nothing from it. */
  lemma {:induction false} WeightFromOutside(g: Graph, c: NodeId, v: NodeId, k: nat)
    requires Valid(g) && c < |g.rules| && k <= |InVars(g, c)| && v !in Children(g, c)
    ensures WeightFrom(g, c, v, k) == 0.0
    decreases |InVars(g, c)| - k
  {
    if k < |InVars(g, c)| {
      WeightFromOutside(g, c, v, k + 1);
    }
  }

  /** A differentiable step adds `outGrad` times the weight to every gradient
      and raises nothing. */
  lemma {:induction false} StepFromAdds(g: Graph, c: NodeId, outGrad: real, grad: seq<real>, k: nat, v: NodeId)
    requires Valid(g) && c < |g.rules| && |grad| == |g.rules| && k <= |InVars(g, c)| && v < |grad|
    requires Differentiable(g, c)
    ensures StepFrom(g, c, outGrad, grad, k).raised == None
    ensures StepFrom(g, c, outGrad, grad, k).grad[v] == grad[v] + Times(outGrad, WeightFrom(g, c, v, k))
    decreases |InVars(g, c)| - k
  {
    if k < |InVars(g, c)| {
      var rest := WeightFrom(g, c, v, k + 1);
      if InVars(g, c)[k].Const? {
        StepFromAdds(g, c, outGrad, grad, k + 1, v);
        assert WeightFrom(g, c, v, k) == rest;
      } else {
        var id := InVars(g, c)[k].id;
        assert PartialAt(g, c, k).Ok?;
        var p := PartialAt(g, c, k).value;
        var next := grad[id := grad[id] + Times(outGrad, p)];
        assert StepFrom(g, c, outGrad, grad, k) == StepFrom(g, c, outGrad, next, k + 1);
        StepFromAdds(g, c, outGrad, next, k + 1, v);
        if v == id {
          assert WeightFrom(g, c, v, k) == p + rest;
          Distributes(outGrad, p, rest);
        } else {
          assert WeightFrom(g, c, v, k) == rest;
        }
      }
    }
  }

  lemma Distributes(a: real, b: real, c: real)
    ensures Times(a, b + c) == Times(a, b) + Times(a, c)
  {
  }

  /** A step changes only the gradients of the node's children. */
  lemma {:induction false} StepFromFrame(g: Graph, c: NodeId, outGrad: real, grad: seq<real>, k: nat, v: NodeId)
    requires Valid(g) && c < |g.rules| && |grad| == |g.rules| && k <= |InVars(g, c)|
    requires v < |grad| && v !in Children(g, c)
    ensures StepFrom(g, c, outGrad, grad, k).grad[v] == grad[v]
    decreases |InVars(g, c)| - k
  {
    if k < |InVars(g, c)| {
      if InVars(g, c)[k].Const? {
        StepFromFrame(g, c, outGrad, grad, k + 1, v);
      } else {
        assert InVars(g, c)[k].id in Children(g, c);
        if PartialAt(g, c, k).Ok? {
          var id := InVars(g, c)[k].id;
          StepFromFrame(g, c, outGrad, grad[id := grad[id] + Times(outGrad, PartialAt(g, c, k).value)], k + 1, v);
        }
      }
    }
  }

  /** A step of a node that is not differentiable raises, whatever the gradients. */
  lemma {:induction false} StepFromRaises(g: Graph, c: NodeId, outGrad: real, grad: seq<real>, k: nat, j: nat)
    requires Valid(g) && c < |g.rules| && |grad| == |g.rules| && k <= j < |InVars(g, c)|
    requires InVars(g, c)[j].Ref? && PartialAt(g, c, j).Err?
    ensures StepFrom(g, c, outGrad, grad, k).raised.Some?
    decreases |InVars(g, c)| - k
  {
    if k < j {
      if InVars(g, c)[k].Const? {
        StepFromRaises(g, c, outGrad, grad, k + 1, j);
      } else if PartialAt(g, c, k).Ok? {
        var id := InVars(g, c)[k].id;
        StepFromRaises(g, c, outGrad, grad[id := grad[id] + Times(outGrad, PartialAt(g, c, k).value)], k + 1, j);
      }
    }
  }

  /** `c._backward()` raises exactly when `c` is not differentiable; otherwise
      it adds `grad[c]` times the weight to each gradient. */
  lemma StepEffect(g: Graph, c: NodeId, grad: seq<real>)
    requires Valid(g) && c < |g.rules| && |grad| == |g.rules|
    ensures Step(g, c, grad).raised.Some? <==> !Differentiable(g, c)
    ensures Differentiable(g, c) ==>
              forall v :: 0 <= v < |grad| ==> Step(g, c, grad).grad[v] == grad[v] + Times(grad[c], Weight(g, c, v))
  {
    if Differentiable(g, c) {
      forall v | 0 <= v < |grad|
        ensures Step(g, c, grad).raised == None
        ensures Step(g, c, grad).grad[v] == grad[v] + Times(grad[c], Weight(g, c, v))
      {
        StepFromAdds(g, c, grad[c], grad, 0, v);
      }
      StepFromAdds(g, c, grad[c], grad, 0, c);
    } else {
      var j :| 0 <= j < |InVars(g, c)| && InVars(g, c)[j].Ref? && PartialAt(g, c, j).Err?;
      StepFromRaises(g, c, grad[c], grad, 0, j);
    }
  }

  /** A pass changes only the gradients of the children of the nodes it visits. */
  lemma {:induction false} PropagateFrame(g: Graph, ord: seq<NodeId>, grad: seq<real>, v: NodeId)
    requires Valid(g) && InGraph(g, ord) && |grad| == |g.rules| && v < |grad|
    requires forall i :: 0 <= i < |ord| ==> v !in Children(g, ord[i])
    ensures Propagate(g, ord, grad).grad[v] == grad[v]
  {
    if ord != [] {
      StepFromFrame(g, ord[0], grad[ord[0]], grad, 0, v);
      var o := Step(g, ord[0], grad);
      if o.raised.None? {
        PropagateFrame(g, ord[1..], o.grad, v);
      }
    }
  }

  /** A pass raises exactly when one of the nodes it visits is not differentiable. */
  lemma {:induction false} PropagateRaises(g: Graph, ord: seq<NodeId>, grad: seq<real>)
    requires Valid(g) && InGraph(g, ord) && |grad| == |g.rules|
    ensures Propagate(g, ord, grad).raised.Some? <==> exists i :: 0 <= i < |ord| && !Differentiable(g, ord[i])
  {
    if ord != [] {
      StepEffect(g, ord[0], grad);
      var o := Step(g, ord[0], grad);
      if o.raised.None? {
        PropagateRaises(g, ord[1..], o.grad);
        if exists i :: 0 <= i < |ord| && !Differentiable(g, ord[i]) {
          var i :| 0 <= i < |ord| && !Differentiable(g, ord[i]);
          assert i != 0;
          assert !Differentiable(g, ord[1..][i - 1]);
        }
        if exists i :: 0 <= i < |ord[1..]| && !Differentiable(g, ord[1..][i]) {
          var i :| 0 <= i < |ord[1..]| && !Differentiable(g, ord[1..][i]);
          assert !Differentiable(g, ord[i + 1]);
        }
      }
    }
  }

  // ---------------------------------------------------------------------------
  // The chain rule, as equations the final gradients satisfy.

  /** The sum, over the nodes of `s` below `n`, of each node's final gradient
      times its weight towards `v`. */
  function Flow(g: Graph, s: set<NodeId>, f: seq<real>, v: NodeId, n: nat): real
    requires Valid(g) && n <= |g.rules| && |f| == |g.rules|
  {
    if n == 0 then 0.0
    else Flow(g, s, f, v, n - 1) + (if n - 1 in s then Times(f[n - 1], Weight(g, n - 1, v)) else 0.0)
  }

  /** Chain rule: every gradient is its initial value plus what flows into it
      from the nodes of `s`, each weighted by its own final gradient. */
  ghost predicate Solves(g: Graph, s: set<NodeId>, init: seq<real>, f: seq<real>)
    requires Valid(g)
  {
    |init| == |g.rules| && |f| == |g.rules| &&
    forall v :: 0 <= v < |f| ==> f[v] == init[v] + Flow(g, s, f, v, |f|)
  }

  lemma {:induction false} FlowAddOne(g: Graph, s: set<NodeId>, f: seq<real>, v: NodeId, n: nat, c: NodeId)
    requires Valid(g) && n <= |g.rules| && |f| == |g.rules| && c !in s && c < n
    ensures Flow(g, s + {c}, f, v, n) == Flow(g, s, f, v, n) + Times(f[c], Weight(g, c, v))
  {
    if c < n - 1 {
      FlowAddOne(g, s, f, v, n - 1, c);
    } else {
      FlowSame(g, s, s + {c}, f, v, n - 1);
    }
  }

  lemma {:induction false} FlowSame(g: Graph, s: set<NodeId>, t: set<NodeId>, f: seq<real>, v: NodeId, n: nat)
    requires Valid(g) && n <= |g.rules| && |f| == |g.rules|
    requires forall c :: c < n ==> (c in s <==> c in t)
    ensures Flow(g, s, f, v, n) == Flow(g, t, f, v, n)
  {
    if n > 0 {
      FlowSame(g, s, t, f, v, n - 1);
    }
  }

  /** The flow into `v` depends only on the gradients of nodes above `v`. */
  lemma {:induction false} FlowAbove(g: Graph, s: set<NodeId>, f: seq<real>, h: seq<real>, v: NodeId, n: nat)
    requires Valid(g) && n <= |g.rules| && |f| == |g.rules| && |h| == |g.rules|
    requires forall c :: v < c < n ==> f[c] == h[c]
    ensures Flow(g, s, f, v, n) == Flow(g, s, h, v, n)
  {
    if n > 0 {
      FlowAbove(g, s, f, h, v, n - 1);
      if n - 1 <= v {
        WeightFromOutside(g, n - 1, v, 0);
      }
    }
  }

  /** The chain-rule equations have one solution. */
  lemma SolutionUnique(g: Graph, s: set<NodeId>, init: seq<real>, f: seq<real>, h: seq<real>)
    requires Valid(g) && Solves(g, s, init, f) && Solves(g, s, init, h)
    ensures f == h
  {
    var n := |f|;
    var m := n;
    while m > 0
      invariant 0 <= m <= n
      invariant forall c :: m <= c < n ==> f[c] == h[c]
    {
      m := m - 1;
      FlowAbove(g, s, f, h, m, n);
    }
  }

  /** Propagating along a topological order that raises nothing solves the
      chain-rule equations over the visited nodes. */
  lemma {:induction false} PropagateSolves(g: Graph, ord: seq<NodeId>, grad: seq<real>)
    requires Valid(g) && InGraph(g, ord) && |grad| == |g.rules|
    requires Distinct(ord) && IsTopoOrder(g, ord)
    requires forall i :: 0 <= i < |ord| ==> Differentiable(g, ord[i])
    ensures Propagate(g, ord, grad).raised == None
    ensures Solves(g, Elems(ord), grad, Propagate(g, ord, grad).grad)
  {
    var n := |grad|;
    if ord == [] {
      assert Elems(ord) == {};
      forall v | 0 <= v < n
        ensures Flow(g, {}, grad, v, n) == 0.0
      {
        FlowEmpty(g, grad, v, n);
      }
    } else {
      var c := ord[0];
      var rest := ord[1..];
      StepEffect(g, c, grad);
      var next := Step(g, c, grad).grad;
      assert forall i :: 0 <= i < |rest| ==> rest[i] == ord[i + 1];
      assert Distinct(rest);
      assert IsTopoOrder(g, rest);
      PropagateSolves(g, rest, next);
      var f := Propagate(g, ord, grad).grad;
      assert f == Propagate(g, rest, next).grad;
      var s := Elems(rest);
      assert c !in s;
      assert Elems(ord) == s + {c};
      // c keeps the gradient it had when its step ran
      PropagateFrame(g, rest, next, c);
      WeightFromOutside(g, c, c, 0);
      assert f[c] == grad[c];
      forall v | 0 <= v < n
        ensures f[v] == grad[v] + Flow(g, s + {c}, f, v, n)
      {
        FlowAddOne(g, s, f, v, n, c);
      }
    }
  }

  lemma {:induction false} FlowEmpty(g: Graph, f: seq<real>, v: NodeId, n: nat)
    requires Valid(g) && n <= |g.rules| && |f| == |g.rules|
    ensures Flow(g, {}, f, v, n) == 0.0
  {
    if n > 0 {
      FlowEmpty(g, f, v, n - 1);
    }
  }

  /** Any two topological orders of the same nodes give the same gradients. */
  lemma OrderIndependent(g: Graph, o1: seq<NodeId>, o2: seq<NodeId>, grad: seq<real>)
    requires Valid(g) && InGraph(g, o1) && InGraph(g, o2) && |grad| == |g.rules|
    requires Distinct(o1) && IsTopoOrder(g, o1) && Distinct(o2) && IsTopoOrder(g, o2)
    requires Elems(o1) == Elems(o2)
    requires forall i :: 0 <= i < |o1| ==> Differentiable(g, o1[i])
    ensures Propagate(g, o1, grad) == Propagate(g, o2, grad)
  {
    forall i | 0 <= i < |o2|
      ensures Differentiable(g, o2[i])
    {
      assert o2[i] in Elems(o2);
    }
    PropagateSolves(g, o1, grad);
    PropagateSolves(g, o2, grad);
    SolutionUnique(g, Elems(o1), grad, Propagate(g, o1, grad).grad, Propagate(g, o2, grad).grad);
  }

  // ---------------------------------------------------------------------------
  // The reference result.

  /** The nodes of `s` below `n`, highest first. */
  function Descending(s: set<NodeId>, n: nat): (r: seq<NodeId>)
    ensures forall i :: 0 <= i < |r| ==> r[i] in s && r[i] < n
    ensures forall i, j :: 0 <= i < j < |r| ==> r[i] > r[j]
    ensures forall d :: d in s && d < n ==> d in r
  {
    if n == 0 then [] else (if n - 1 in s then [n - 1] else []) + Descending(s, n - 1)
  }

  /** The gradients after `v.backward()`: propagation over `v`'s descendants,
      highest node first. */
  ghost function BackwardSpec(g: Graph, v: NodeId, grad: seq<real>): Outcome
    requires Valid(g) && v < |g.rules| && |grad| == |g.rules|
  {
    Propagate(g, Descending(Descendants(g, v), |g.rules|), grad)
  }

  lemma DescendingIsTopo(g: Graph, s: set<NodeId>)
    requires Valid(g)
    ensures InGraph(g, Descending(s, |g.rules|))
    ensures Distinct(Descending(s, |g.rules|)) && IsTopoOrder(g, Descending(s, |g.rules|))
    ensures Elems(Descending(s, |g.rules|)) == set d | d in s && d < |g.rules|
  {
    var r := Descending(s, |g.rules|);
    forall d | d in s && d < |g.rules|
      ensures d in Elems(r)
    {
      var i :| 0 <= i < |r| && r[i] == d;
    }
  }

  /** Every node of `s` is differentiable. */
  predicate AllDifferentiable(g: Graph, s: set<NodeId>)
    requires Valid(g)
  {
    forall d :: d in s && d < |g.rules| ==> Differentiable(g, d)
  }

  /** The highest-first order of `v`'s descendants is a topological order of them. */
  lemma DescendingOrderOf(g: Graph, v: NodeId)
    requires Valid(g) && v < |g.rules|
    ensures InGraph(g, Descending(Descendants(g, v), |g.rules|))
    ensures Distinct(Descending(Descendants(g, v), |g.rules|))
    ensures IsTopoOrder(g, Descending(Descendants(g, v), |g.rules|))
    ensures Elems(Descending(Descendants(g, v), |g.rules|)) == Descendants(g, v)
  {
    DescendingIsTopo(g, Descendants(g, v));
    forall d | d in Descendants(g, v)
      ensures d < |g.rules|
    {
      DescendantsBelow(g, v, d);
    }
  }

  /** Whether a pass raises depends only on the set of nodes it visits. */
  lemma PropagateRaisesOn(g: Graph, ord: seq<NodeId>, grad: seq<real>)
    requires Valid(g) && InGraph(g, ord) && |grad| == |g.rules|
    ensures Propagate(g, ord, grad).raised.Some? <==> !AllDifferentiable(g, Elems(ord))
  {
    PropagateRaises(g, ord, grad);
    if !AllDifferentiable(g, Elems(ord)) {
      var d :| d in Elems(ord) && d < |g.rules| && !Differentiable(g, d);
      var i :| 0 <= i < |ord| && ord[i] == d;
    }
    if exists i :: 0 <= i < |ord| && !Differentiable(g, ord[i]) {
      var i :| 0 <= i < |ord| && !Differentiable(g, ord[i]);
      assert ord[i] in Elems(ord);
    }
  }

  /** The reference result raises exactly when some descendant is not
      differentiable. */
  lemma BackwardSpecRaises(g: Graph, v: NodeId, grad: seq<real>)
    requires Valid(g) && v < |g.rules| && |grad| == |g.rules|
    ensures BackwardSpec(g, v, grad).raised.Some? <==> !AllDifferentiable(g, Descendants(g, v))
  {
    DescendingOrderOf(g, v);
    PropagateRaisesOn(g, Descending(Descendants(g, v), |g.rules|), grad);
  }

  /** Otherwise every descendant's gradient obeys the chain rule: its initial
      value plus, over its parents among the descendants, each parent's final
      gradient times the local partial. */
  lemma BackwardSpecSolves(g: Graph, v: NodeId, grad: seq<real>)
    requires Valid(g) && v < |g.rules| && |grad| == |g.rules|
    requires AllDifferentiable(g, Descendants(g, v))
    ensures BackwardSpec(g, v, grad).raised == None
    ensures Solves(g, Descendants(g, v), grad, BackwardSpec(g, v, grad).grad)
  {
    var ord := Descending(Descendants(g, v), |g.rules|);
    DescendingOrderOf(g, v);
    forall i | 0 <= i < |ord|
      ensures Differentiable(g, ord[i])
    {
      assert ord[i] in Elems(ord);
    }
    PropagateSolves(g, ord, grad);
  }

  /** Any topological order of `v`'s descendants gives the reference result:
      it raises exactly when the reference raises, and otherwise yields the
      same gradients. */
  lemma TopoOrderMeetsSpec(g: Graph, v: NodeId, ord: seq<NodeId>, grad: seq<real>)
    requires Valid(g) && v < |g.rules| && |grad| == |g.rules| && InGraph(g, ord)
    requires Distinct(ord) && IsTopoOrder(g, ord)
    requires Elems(ord) == Descendants(g, v)
    ensures Propagate(g, ord, grad).raised.Some? <==> BackwardSpec(g, v, grad).raised.Some?
    ensures Propagate(g, ord, grad).raised == None ==> Propagate(g, ord, grad) == BackwardSpec(g, v, grad)
  {
    var canon := Descending(Descendants(g, v), |g.rules|);
    DescendingOrderOf(g, v);
    PropagateRaisesOn(g, ord, grad);
    BackwardSpecRaises(g, v, grad);
    if Propagate(g, ord, grad).raised == None {
      forall i | 0 <= i < |ord|
        ensures Differentiable(g, ord[i])
      {
        assert ord[i] in Elems(ord);
      }
      OrderIndependent(g, ord, canon, grad);
    }
  }
}
