/** The engine of lib/value.py: the operators that promote or reject plain
    numbers, the recursive descendant collection, the Kahn-style topological
    ordering and `backward`. */
module ValueEngine {
  import opened Common
  import opened Calculus
  import opened Backprop
  import opened Nodes

  // ---------------------------------------------------------------------------
  // Operators

  /** `a * other`: a plain number has no `.data`, so it raises AttributeError. */
  method Mul(arena: Arena, a: NodeId, other: Arg) returns (r: Result<NodeId>)
    requires arena.Valid() && a < |arena.data| && arena.ArgIn(other)
    modifies arena
    ensures arena.Valid()
    ensures other.Number? ==> r == Err(AttributeError) && unchanged(arena)
    ensures other.Node? ==> (r == Ok(old(|arena.data|)) &&
              arena.data == old(arena.data) + [Times(old(arena.data[a]), old(arena.data[other.id]))] &&
              arena.grad == old(arena.grad) + [0.0] &&
              arena.rules == old(arena.rules) + [Applied(Op.Mul, [Ref(a), Ref(other.id)])])
  {
    if other.Number? {
      return Err(AttributeError);
    }
    var id := arena.Mul(a, other.id);
    r := Ok(id);
  }

  /** `a + other`: as for `*`, a plain number raises AttributeError. */
  method Add(arena: Arena, a: NodeId, other: Arg) returns (r: Result<NodeId>)
    requires arena.Valid() && a < |arena.data| && arena.ArgIn(other)
    modifies arena
    ensures arena.Valid()
    ensures other.Number? ==> r == Err(AttributeError) && unchanged(arena)
    ensures other.Node? ==> (r == Ok(old(|arena.data|)) &&
              arena.data == old(arena.data) + [old(arena.data[a]) + old(arena.data[other.id])] &&
              arena.grad == old(arena.grad) + [0.0] &&
              arena.rules == old(arena.rules) + [Applied(Op.Add, [Ref(a), Ref(other.id)])])
  {
    if other.Number? {
      return Err(AttributeError);
    }
    var id := arena.Add(a, other.id);
    r := Ok(id);
  }

  /** `other + a` with `a` a node: a number is first made a leaf; the sum
      lists `a` first. */
  method RAdd(arena: Arena, a: NodeId, other: Arg) returns (r: NodeId)
    requires arena.Valid() && a < |arena.data| && arena.ArgIn(other)
    modifies arena
    ensures arena.Valid() && r == |arena.data| - 1
    ensures arena.data[r] == old(arena.data[a]) + old(arena.ArgData(other))
    ensures other.Node? ==> (
              arena.data == old(arena.data) + [old(arena.data[a]) + old(arena.data[other.id])] &&
              arena.grad == old(arena.grad) + [0.0] &&
              arena.rules == old(arena.rules) + [Applied(Op.Add, [Ref(a), Ref(other.id)])])
    ensures other.Number? ==> (
              arena.data == old(arena.data) + [other.x, old(arena.data[a]) + other.x] &&
              arena.grad == old(arena.grad) + [0.0, 0.0] &&
              arena.rules == old(arena.rules) + [Rule.Leaf, Applied(Op.Add, [Ref(a), Ref(old(|arena.data|))])])
  {
    var b := arena.Promote(other);
    r := arena.Add(a, b);
  }

  /** `a - b` for two nodes: `a + (-b)`. A plain number `b` becomes `-b`, a
      number, and adding it raises AttributeError. */
  method Sub(arena: Arena, a: NodeId, other: Arg) returns (r: Result<NodeId>)
    requires arena.Valid() && a < |arena.data| && arena.ArgIn(other)
    modifies arena
    ensures arena.Valid()
    ensures other.Number? ==> r == Err(AttributeError) && unchanged(arena)
    ensures other.Node? ==> (r == Ok(old(|arena.data|) + 1) &&
              arena.data == old(arena.data) + [-old(arena.data[other.id]), old(arena.data[a]) - old(arena.data[other.id])] &&
              arena.grad == old(arena.grad) + [0.0, 0.0] &&
              arena.rules == old(arena.rules) + [Applied(Op.Neg, [Ref(other.id)]), Applied(Op.Add, [Ref(a), Ref(old(|arena.data|))])])
  {
    if other.Number? {
      return Err(AttributeError);
    }
    var negated := arena.Neg(other.id);
    var id := arena.Add(a, negated);
    r := Ok(id);
  }

  /** `a / other`: a number is first made a leaf. */
  method TrueDiv(arena: Arena, num: Numerics, a: NodeId, other: Arg) returns (r: Result<NodeId>)
    requires arena.Valid() && a < |arena.data| && arena.ArgIn(other)
    modifies arena
    ensures arena.Valid()
    ensures r.Err? <==> old(arena.ArgData(other)) == 0.0
    ensures r.Err? ==> r.error == ZeroDivisionError
    ensures r.Ok? ==> (r.value == |arena.data| - 1 &&
              arena.data[r.value] * old(arena.ArgData(other)) == old(arena.data[a]))
    ensures |arena.data| >= old(|arena.data|) && arena.data[..old(|arena.data|)] == old(arena.data)
  {
    var b := arena.Promote(other);
    r := arena.Div(num, a, b);
  }

  /** `x / a` for a number `x`: `Value(x) / a`. */
  method RTrueDiv(arena: Arena, num: Numerics, a: NodeId, x: real) returns (r: Result<NodeId>)
    requires arena.Valid() && a < |arena.data|
    modifies arena
    ensures arena.Valid()
    ensures r.Err? <==> old(arena.data[a]) == 0.0
    ensures r.Err? ==> r.error == ZeroDivisionError
    ensures r.Ok? ==> (r.value == |arena.data| - 1 && arena.data[r.value] * old(arena.data[a]) == x)
    ensures |arena.data| >= old(|arena.data|) && arena.data[..old(|arena.data|)] == old(arena.data)
  {
    var leaf := arena.Leaf(x);
    r := arena.Div(num, leaf, a);
  }

  // ---------------------------------------------------------------------------
  // The backward pass

  /** `_get_all_descendats(all)`: adds `v` and, through every child, all that
      lies below it. */
  method CollectDescendants(g: Graph, v: NodeId, acc: set<NodeId>) returns (all: set<NodeId>)
    requires Valid(g) && v < |g.rules|
    ensures all == acc + Descendants(g, v)
    decreases v
  {
    all := acc + {v};
    var children := ListOf(Children(g, v));
    var i := 0;
    assert forall c :: c in children ==> c < v;
    ghost var done: set<NodeId> := {};
    while i < |children|
      invariant i <= |children| && done == Elems(children[..i])
      invariant forall c :: c in done ==> c < v
      invariant all == acc + {v} + DescendantsOfAll(g, done)
    {
      var c := children[i];
      assert c in children;
      assert Elems(children[..i + 1]) == done + {c} by {
        assert children[..i + 1] == children[..i] + [c];
      }
      DescendantsOfAllAddOne(g, done, c);
      all := CollectDescendants(g, c, all);
      done := done + {c};
      i := i + 1;
    }
    assert children[..i] == children;
    assert done == Children(g, v);
    DescendantsUnfold(g, v);
  }

  /** The first `[i for i in items if i not in out]`. */
  function Without(items: seq<NodeId>, out: set<NodeId>): (r: seq<NodeId>)
    ensures forall x :: x in r <==> x in items && x !in out
    ensures Distinct(items) ==> Distinct(r)
    ensures |r| <= |items| && ((exists x :: x in items && x in out) ==> |r| < |items|)
  {
    if items == [] then []
    else
      var rest := Without(items[1..], out);
      assert forall x :: x in items[1..] ==> x in items;
      if items[0] in out then rest else [items[0]] + rest
  }

  ghost function MinOf(s: seq<NodeId>): (m: NodeId)
    requires s != []
    ensures m in s && forall x :: x in s ==> m <= x
  {
    if |s| == 1 then s[0]
    else
      var m := MinOf(s[1..]);
      assert forall x :: x in s ==> x == s[0] || x in s[1..];
      if s[0] <= m then s[0] else m
  }

  /** The state of the ordering loop: what is left, what is ordered, and
      `descendants_map` holding each node's strict descendants not yet ordered. */
  ghost predicate KahnInvariant(g: Graph, all: set<NodeId>, remaining: seq<NodeId>, reverseOrder: seq<NodeId>,
                                dm: map<NodeId, set<NodeId>>)
    requires Valid(g)
  {
    InGraph(g, remaining) && InGraph(g, reverseOrder) && Distinct(remaining) && Distinct(reverseOrder) &&
    Elems(remaining) !! Elems(reverseOrder) && Elems(remaining) + Elems(reverseOrder) == all &&
    dm.Keys == all &&
    (forall x :: x in all ==> x < |g.rules| && Descendants(g, x) <= all) &&
    (forall x :: x in dm ==> dm[x] == Descendants(g, x) - {x} - Elems(reverseOrder)) &&
    ChildrenFirst(g, reverseOrder)
  }

  /** While nodes remain, the lowest of them has no strict descendant left,
      so every round orders at least one node. */
  lemma ReadyExists(g: Graph, all: set<NodeId>, remaining: seq<NodeId>, reverseOrder: seq<NodeId>,
                    dm: map<NodeId, set<NodeId>>)
    requires Valid(g) && KahnInvariant(g, all, remaining, reverseOrder, dm) && remaining != []
    ensures exists x :: x in remaining && dm[x] == {}
  {
    var m := MinOf(remaining);
    forall d | d in Descendants(g, m) - {m}
      ensures d in Elems(reverseOrder)
    {
      DescendantsBelow(g, m, d);
    }
    assert dm[m] == {};
  }

  lemma DistinctAppend(a: seq<NodeId>, b: seq<NodeId>)
    requires Distinct(a) && Distinct(b) && Elems(a) !! Elems(b)
    ensures Distinct(a + b)
  {
    forall i, j | 0 <= i < j < |a + b|
      ensures (a + b)[i] != (a + b)[j]
    {
      if i < |a| <= j {
        assert (a + b)[i] in Elems(a) && (a + b)[j] in Elems(b);
      }
    }
  }

  /** Appending nodes whose children are all already placed keeps children
      before parents. */
  lemma ChildrenFirstAppend(g: Graph, ord: seq<NodeId>, batch: seq<NodeId>)
    requires Valid(g) && InGraph(g, ord + batch) && InGraph(g, ord) && ChildrenFirst(g, ord)
    requires forall i :: 0 <= i < |batch| ==> batch[i] < |g.rules| && Children(g, batch[i]) <= Elems(ord)
    ensures ChildrenFirst(g, ord + batch)
  {
    var ro := ord + batch;
    forall j | 0 <= j < |ro|
      ensures Children(g, ro[j]) <= Elems(ro[..j])
    {
      if j < |ord| {
        assert ro[..j] == ord[..j];
      } else {
        assert ro[j] == batch[j - |ord|];
        assert ro[..j][..|ord|] == ord;
      }
    }
  }

  /** The ordered part after a round: still in the graph, still without
      repeats, still children before parents, and grown by the batch. */
  lemma AppendReadyOrder(g: Graph, all: set<NodeId>, remaining: seq<NodeId>, reverseOrder: seq<NodeId>,
                         dm: map<NodeId, set<NodeId>>, ready: set<NodeId>, batch: seq<NodeId>)
    requires Valid(g) && KahnInvariant(g, all, remaining, reverseOrder, dm)
    requires ready == set x | x in remaining && dm[x] == {}
    requires Distinct(batch) && forall x :: x in batch <==> x in ready
    ensures InGraph(g, reverseOrder + batch) && Distinct(reverseOrder + batch)
    ensures ChildrenFirst(g, reverseOrder + batch)
    ensures Elems(reverseOrder + batch) == Elems(reverseOrder) + ready
  {
    var ro := reverseOrder + batch;
    assert Elems(batch) == ready;
    assert InGraph(g, ro) by {
      forall i | |reverseOrder| <= i < |ro|
        ensures ro[i] < |g.rules|
      {
        assert ro[i] in batch && ro[i] in remaining;
      }
    }
    forall i | 0 <= i < |batch|
      ensures batch[i] < |g.rules| && Children(g, batch[i]) <= Elems(reverseOrder)
    {
      var x := batch[i];
      assert x in ready;
      assert x in remaining && dm[x] == {};
      assert x in all && x < |g.rules|;
      assert Descendants(g, x) - {x} <= Elems(reverseOrder);
      ChildrenAreStrictDescendants(g, x);
    }
    ChildrenFirstAppend(g, reverseOrder, batch);
    DistinctAppend(reverseOrder, batch);
  }

  /** The nodes left after a round: still in the graph, and together with
      the grown order exactly the nodes the loop started with. */
  lemma AppendReadyRemaining(g: Graph, all: set<NodeId>, remaining: seq<NodeId>, reverseOrder: seq<NodeId>,
                             ready: set<NodeId>, batch: seq<NodeId>)
    requires Valid(g) && InGraph(g, remaining) && Distinct(remaining)
    requires Elems(remaining) !! Elems(reverseOrder) && Elems(remaining) + Elems(reverseOrder) == all
    requires ready <= Elems(remaining)
    requires Elems(reverseOrder + batch) == Elems(reverseOrder) + ready
    ensures InGraph(g, Without(remaining, ready)) && Distinct(Without(remaining, ready))
    ensures Elems(Without(remaining, ready)) !! Elems(reverseOrder + batch)
    ensures Elems(Without(remaining, ready)) + Elems(reverseOrder + batch) == all
  {
    var rem := Without(remaining, ready);
    assert InGraph(g, rem) by {
      forall i | 0 <= i < |rem|
        ensures rem[i] < |g.rules|
      {
        assert rem[i] in remaining;
      }
    }
  }

  /** The map after a round: each node's strict descendants not yet ordered. */
  lemma AppendReadyMap(g: Graph, all: set<NodeId>, reverseOrder: seq<NodeId>, dm: map<NodeId, set<NodeId>>,
                       ready: set<NodeId>, batch: seq<NodeId>)
    requires Valid(g) && dm.Keys == all && forall x :: x in all ==> x < |g.rules|
    requires forall x :: x in dm ==> dm[x] == Descendants(g, x) - {x} - Elems(reverseOrder)
    requires Elems(reverseOrder + batch) == Elems(reverseOrder) + ready
    ensures (map x | x in dm :: dm[x] - ready).Keys == all
    ensures forall x :: x in (map x | x in dm :: dm[x] - ready) ==>
              (map x | x in dm :: dm[x] - ready)[x] == Descendants(g, x) - {x} - Elems(reverseOrder + batch)
  {
  }

  /** Appending a batch of ready nodes keeps the ordering loop's state. */
  lemma AppendReady(g: Graph, all: set<NodeId>, remaining: seq<NodeId>, reverseOrder: seq<NodeId>,
                    dm: map<NodeId, set<NodeId>>, ready: set<NodeId>, batch: seq<NodeId>)
    requires Valid(g) && KahnInvariant(g, all, remaining, reverseOrder, dm)
    requires ready == set x | x in remaining && dm[x] == {}
    requires Distinct(batch) && forall x :: x in batch <==> x in ready
    ensures KahnInvariant(g, all, Without(remaining, ready), reverseOrder + batch, map x | x in dm :: dm[x] - ready)
  {
    AppendReadyOrder(g, all, remaining, reverseOrder, dm, ready, batch);
    AppendReadyRemaining(g, all, remaining, reverseOrder, ready, batch);
    AppendReadyMap(g, all, reverseOrder, dm, ready, batch);
  }

  /** The first loop of `_order_topologically`: `descendants_map[i]` is the
      set of `i`'s strict descendants. */
  method DescendantsMap(g: Graph, items: seq<NodeId>) returns (dm: map<NodeId, set<NodeId>>)
    requires Valid(g) && InGraph(g, items)
    ensures dm.Keys == Elems(items)
    ensures forall x :: x in dm ==> x < |g.rules| && dm[x] == Descendants(g, x) - {x}
  {
    dm := map[];
    var i := 0;
    while i < |items|
      invariant i <= |items| && dm.Keys == Elems(items[..i])
      invariant forall x :: x in dm ==> x < |g.rules| && dm[x] == Descendants(g, x) - {x}
    {
      var descendants := CollectDescendants(g, items[i], {});
      dm := dm[items[i] := descendants - {items[i]}];
      assert items[..i + 1] == items[..i] + [items[i]];
      i := i + 1;
    }
    assert items[..i] == items;
  }

  /** One round's `[i for i in items if not descendants_map[i]]`, as a set. */
  method ReadyNodes(remaining: seq<NodeId>, dm: map<NodeId, set<NodeId>>) returns (ready: set<NodeId>)
    requires forall x :: x in remaining ==> x in dm
    ensures ready == set x | x in remaining && dm[x] == {}
  {
    ready := {};
    for j := 0 to |remaining|
      invariant ready == set x | x in remaining[..j] && dm[x] == {}
    {
      assert remaining[..j + 1] == remaining[..j] + [remaining[j]];
      if dm[remaining[j]] == {} {
        ready := ready + {remaining[j]};
      }
    }
    assert remaining[..|remaining|] == remaining;
  }

  /** `_order_topologically(items)`: repeatedly orders every remaining node
      whose descendants are all ordered, then returns the order reversed. */
  method OrderTopologically(g: Graph, items: seq<NodeId>) returns (order: seq<NodeId>)
    requires Valid(g) && InGraph(g, items) && Distinct(items)
    requires forall i :: 0 <= i < |items| ==> Children(g, items[i]) <= Elems(items)
    ensures InGraph(g, order) && Distinct(order) && Elems(order) == Elems(items) && IsTopoOrder(g, order)
  {
    ghost var all := Elems(items);
    forall x | x in all
      ensures x < |g.rules| && Descendants(g, x) <= all
    {
      DescendantsLeast(g, x, all);
    }
    var dm := DescendantsMap(g, items);
    var remaining := items;
    var reverseOrder: seq<NodeId> := [];
    assert Elems(reverseOrder) == {};
    assert KahnInvariant(g, all, remaining, reverseOrder, dm);
    while remaining != []
      invariant KahnInvariant(g, all, remaining, reverseOrder, dm)
      decreases |remaining|
    {
      var ready := ReadyNodes(remaining, dm);
      ReadyExists(g, all, remaining, reverseOrder, dm);
      var batch := ListOf(ready);
      AppendReady(g, all, remaining, reverseOrder, dm, ready, batch);
      remaining := Without(remaining, ready);
      dm := map x | x in dm :: dm[x] - ready;
      reverseOrder := reverseOrder + batch;
    }
    assert Elems(remaining) == {};
    ReverseIsTopo(g, reverseOrder);
    order := Reverse(reverseOrder);
  }

  /** `v.backward()`: collects the descendants, orders them and runs each
      one's `_backward`. The gradients are those of the reference result when
      nothing raises, and it raises exactly when the reference does. */
  method Backward(arena: Arena, num: Numerics, v: NodeId) returns (raised: Option<Error>, order: seq<NodeId>)
    requires arena.Valid() && v < |arena.rules|
    modifies arena
    ensures arena.Valid() && arena.data == old(arena.data) && arena.rules == old(arena.rules)
    ensures InGraph(arena.Snapshot(num), order) && Distinct(order) && IsTopoOrder(arena.Snapshot(num), order)
    ensures Elems(order) == Descendants(arena.Snapshot(num), v)
    ensures Outcome(arena.grad, raised) == Propagate(arena.Snapshot(num), order, old(arena.grad))
    ensures raised.Some? <==> !AllDifferentiable(arena.Snapshot(num), Descendants(arena.Snapshot(num), v))
    ensures raised == None ==> arena.grad == BackwardSpec(arena.Snapshot(num), v, old(arena.grad)).grad
  {
    var g := arena.Snapshot(num);
    var all := CollectDescendants(g, v, {});
    var items := ListOf(all);
    forall i | 0 <= i < |items|
      ensures items[i] < |g.rules| && Children(g, items[i]) <= Elems(items)
    {
      DescendantsBelow(g, v, items[i]);
      forall x | x in Children(g, items[i])
        ensures x in all
      {
        DescendantsClosed(g, v, items[i], x);
      }
    }
    order := OrderTopologically(g, items);
    raised := arena.RunAll(num, order);
    TopoOrderMeetsSpec(g, v, order, old(arena.grad));
    BackwardSpecRaises(g, v, old(arena.grad));
    PropagateRaisesOn(g, order, old(arena.grad));
  }
}
