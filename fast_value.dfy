/** The engine of lib/fast/value.py: every binary operator first turns a
    plain number into a leaf, and `backward` orders the descendants by an
    iterative depth-first search with an explicit stack. */
module FastEngine {
  import opened Common
  import opened Calculus
  import opened Backprop
  import opened Nodes

  // ---------------------------------------------------------------------------
  // Operators

  /** `a + other` (and `other + a`, which calls it): the sum of the two,
      with `a` as the first operand. */
  method Add(arena: Arena, a: NodeId, other: Arg) returns (r: NodeId)
    requires arena.Valid() && a < |arena.data| && arena.ArgIn(other)
    modifies arena
    ensures arena.Valid() && r == |arena.data| - 1
    ensures arena.data[r] == old(arena.data[a]) + old(arena.ArgData(other))
    ensures other.Node? ==> (
              arena.data == old(arena.data) + [old(arena.data[a]) + old(arena.data[other.id])] &&
              arena.grad == old(arena.grad) + [0.0] &&
              arena.rules == old(arena.rules) + [Applied(Op.Add, [Ref(a), Ref(other.id)])])
    ensures other.Number? ==> (
              arena.data == old(arena.data) + [other.x, old(arena.data[a]) + other.x] &&
              arena.grad == old(arena.grad) + [0.0, 0.0] &&
              arena.rules == old(arena.rules) + [Rule.Leaf, Applied(Op.Add, [Ref(a), Ref(old(|arena.data|))])])
  {
    var b := arena.Promote(other);
    r := arena.Add(a, b);
  }

  /** `a * other` (and `other * a`, which calls it). */
  method Mul(arena: Arena, a: NodeId, other: Arg) returns (r: NodeId)
    requires arena.Valid() && a < |arena.data| && arena.ArgIn(other)
    modifies arena
    ensures arena.Valid() && r == |arena.data| - 1
    ensures arena.data[r] == Times(old(arena.data[a]), old(arena.ArgData(other)))
    ensures other.Node? ==> (
              arena.data == old(arena.data) + [Times(old(arena.data[a]), old(arena.data[other.id]))] &&
              arena.grad == old(arena.grad) + [0.0] &&
              arena.rules == old(arena.rules) + [Applied(Op.Mul, [Ref(a), Ref(other.id)])])
    ensures other.Number? ==> (
              arena.data == old(arena.data) + [other.x, Times(old(arena.data[a]), other.x)] &&
              arena.grad == old(arena.grad) + [0.0, 0.0] &&
              arena.rules == old(arena.rules) + [Rule.Leaf, Applied(Op.Mul, [Ref(a), Ref(old(|arena.data|))])])
  {
    var b := arena.Promote(other);
    r := arena.Mul(a, b);
  }

  /** `a - other`: `a + (-other)`, after promoting a number. */
  method Sub(arena: Arena, a: NodeId, other: Arg) returns (r: NodeId)
    requires arena.Valid() && a < |arena.data| && arena.ArgIn(other)
    modifies arena
    ensures arena.Valid() && r == |arena.data| - 1
    ensures arena.data[r] == old(arena.data[a]) - old(arena.ArgData(other))
    ensures |arena.data| == old(|arena.data|) + (if other.Number? then 3 else 2)
    ensures arena.data[..old(|arena.data|)] == old(arena.data)
    ensures arena.rules[r] == Applied(Op.Add, [Ref(a), Ref(r - 1)]) &&
            arena.rules[r - 1] == Applied(Op.Neg, [Ref(if other.Node? then other.id else r - 2)])
  {
    var b := arena.Promote(other);
    var negated := arena.Neg(b);
    r := arena.Add(a, negated);
  }

  /** `x - a` for a number `x`: `Value(x) + (-a)`. */
  method RSub(arena: Arena, a: NodeId, x: real) returns (r: NodeId)
    requires arena.Valid() && a < |arena.data|
    modifies arena
    ensures arena.Valid() && r == old(|arena.data|) + 2
    ensures arena.data == old(arena.data) + [x, -old(arena.data[a]), x - old(arena.data[a])]
    ensures arena.grad == old(arena.grad) + [0.0, 0.0, 0.0]
    ensures arena.rules == old(arena.rules) + [Rule.Leaf, Applied(Op.Neg, [Ref(a)]),
                                              Applied(Op.Add, [Ref(r - 2), Ref(r - 1)])]
  {
    var leaf := arena.Leaf(x);
    var negated := arena.Neg(a);
    r := arena.Add(leaf, negated);
  }

  /** `a / other`: `a * other ** -1`, after promoting a number; a zero
      divisor raises ZeroDivisionError (a promoted leaf stays in the arena). */
  method TrueDiv(arena: Arena, num: Numerics, a: NodeId, other: Arg) returns (r: Result<NodeId>)
    requires arena.Valid() && a < |arena.data| && arena.ArgIn(other)
    modifies arena
    ensures arena.Valid()
    ensures r.Err? <==> old(arena.ArgData(other)) == 0.0
    ensures r.Err? ==> r.error == ZeroDivisionError
    ensures r.Ok? ==> (r.value == |arena.data| - 1 &&
              arena.data[r.value] * old(arena.ArgData(other)) == old(arena.data[a]))
    ensures |arena.data| >= old(|arena.data|) && arena.data[..old(|arena.data|)] == old(arena.data)
  {
    var b := arena.Promote(other);
    r := arena.Div(num, a, b);
  }

  /** `x / a` for a number `x`: `Value(x) / a`. */
  method RTrueDiv(arena: Arena, num: Numerics, a: NodeId, x: real) returns (r: Result<NodeId>)
    requires arena.Valid() && a < |arena.data|
    modifies arena
    ensures arena.Valid()
    ensures r.Err? <==> old(arena.data[a]) == 0.0
    ensures r.Err? ==> r.error == ZeroDivisionError
    ensures r.Ok? ==> (r.value == |arena.data| - 1 && arena.data[r.value] * old(arena.data[a]) == x)
    ensures |arena.data| >= old(|arena.data|) && arena.data[..old(|arena.data|)] == old(arena.data)
  {
    var leaf := arena.Leaf(x);
    r := arena.Div(num, leaf, a);
  }

  /** `a.sqrt()`: `a ** 0.5`. */
  method Sqrt(arena: Arena, num: Numerics, a: NodeId) returns (r: Result<NodeId>)
    requires arena.Valid() && a < |arena.data|
    modifies arena
    ensures arena.Valid()
    ensures r.Ok? <==> PyPow(num, old(arena.data[a]), 0.5).Ok?
    ensures r.Ok? ==> (r.value == old(|arena.data|) &&
              arena.data == old(arena.data) + [num.rpow(old(arena.data[a]), 0.5)] &&
              arena.rules == old(arena.rules) + [Applied(Op.Pow, [Ref(a), Const(0.5)])])
  {
    r := arena.Pow(num, a, 0.5);
  }

  // ---------------------------------------------------------------------------
  // The depth-first ordering

  /** A stack entry: a node, and whether its children have been pushed. */
  datatype Entry = Entry(node: NodeId, expanded: bool)

  /** The entries pushed for the children of a node, in iteration order. */
  function Pending(cs: seq<NodeId>): (r: seq<Entry>)
    ensures |r| == |cs| && forall i :: 0 <= i < |cs| ==> r[i] == Entry(cs[i], false)
  {
    if cs == [] then [] else [Entry(cs[0], false)] + Pending(cs[1..])
  }

  /** Every entry is a descendant of `v`. */
  ghost predicate StackIn(g: Graph, v: NodeId, stack: seq<Entry>)
    requires Valid(g) && v < |g.rules|
  {
    forall i :: 0 <= i < |stack| ==> stack[i].node in Descendants(g, v) && stack[i].node < |g.rules|
  }

  /** The ordered nodes are distinct visited descendants, children first. */
  ghost predicate OrderedOk(g: Graph, v: NodeId, visited: set<NodeId>, ordered: seq<NodeId>)
    requires Valid(g) && v < |g.rules|
  {
    visited <= Descendants(g, v) && InGraph(g, ordered) && Distinct(ordered) &&
    ChildrenFirst(g, ordered) && Elems(ordered) <= visited
  }

  /** A marked (expanded) node is visited, not yet ordered, and marked once. */
  predicate MarksOk(stack: seq<Entry>, visited: set<NodeId>, ordered: seq<NodeId>)
  {
    (forall i :: 0 <= i < |stack| && stack[i].expanded ==>
       stack[i].node in visited && stack[i].node !in Elems(ordered)) &&
    (forall i, j :: 0 <= i < j < |stack| && stack[i].expanded && stack[j].expanded ==>
       stack[i].node != stack[j].node)
  }

  /** A visited node is ordered or marked. */
  predicate VisitedAccounted(stack: seq<Entry>, visited: set<NodeId>, ordered: seq<NodeId>)
  {
    forall x :: x in visited ==>
      x in Elems(ordered) || exists i :: 0 <= i < |stack| && stack[i] == Entry(x, true)
  }

  /** Every child of a marked node is ordered or waits above the mark. */
  predicate ChildrenWait(g: Graph, stack: seq<Entry>, ordered: seq<NodeId>)
    requires Valid(g) && forall i :: 0 <= i < |stack| ==> stack[i].node < |g.rules|
  {
    forall p, c :: 0 <= p < |stack| && stack[p].expanded && c in Children(g, stack[p].node) ==>
      c in Elems(ordered) || exists q :: p < q < |stack| && stack[q].node == c
  }

  /** What lies above a mark is lower in identity than the marked node. */
  predicate BelowMarks(stack: seq<Entry>)
  {
    forall p, q :: 0 <= p < q < |stack| && stack[p].expanded ==> stack[q].node < stack[p].node
  }

  /** The state of the depth-first loop. Every node found so far is a
      descendant of `v`; a node is visited once it has been either ordered or
      marked (its expanded entry is on the stack, at most once); ordered
      nodes come after their children; every child of a marked node is
      ordered or waits above the mark; and what lies above a mark is
      strictly below it in the graph, so lower in identity. */
  ghost predicate DfsState(g: Graph, v: NodeId, stack: seq<Entry>, visited: set<NodeId>, ordered: seq<NodeId>)
    requires Valid(g) && v < |g.rules|
  {
    StackIn(g, v, stack) && OrderedOk(g, v, visited, ordered) && MarksOk(stack, visited, ordered) &&
    VisitedAccounted(stack, visited, ordered) && ChildrenWait(g, stack, ordered) && BelowMarks(stack) &&
    (v in visited || (stack == [Entry(v, false)] && visited == {} && ordered == []))
  }

  // Popping an expanded entry `x`: all its children are ordered, so `x` can be.

  lemma PopExpandedOrdered(g: Graph, v: NodeId, stack: seq<Entry>, visited: set<NodeId>, ordered: seq<NodeId>)
    requires Valid(g) && v < |g.rules| && StackIn(g, v, stack) && OrderedOk(g, v, visited, ordered)
    requires MarksOk(stack, visited, ordered) && ChildrenWait(g, stack, ordered)
    requires stack != [] && stack[|stack| - 1].expanded
    ensures OrderedOk(g, v, visited, ordered + [stack[|stack| - 1].node])
  {
    var t := |stack| - 1;
    var x := stack[t].node;
    var ord := ordered + [x];
    assert Elems(ord) == Elems(ordered) + {x};
    assert Children(g, x) <= Elems(ordered);
    assert ord[..|ordered|] == ordered;
    assert InGraph(g, ord);
    assert ChildrenFirst(g, ord) by {
      forall j | 0 <= j < |ord|
        ensures Children(g, ord[j]) <= Elems(ord[..j])
      {
        if j < |ordered| {
          assert ord[..j] == ordered[..j];
        }
      }
    }
    assert Distinct(ord);
  }

  lemma PopExpandedMarks(stack: seq<Entry>, visited: set<NodeId>, ordered: seq<NodeId>)
    requires MarksOk(stack, visited, ordered) && VisitedAccounted(stack, visited, ordered)
    requires stack != [] && stack[|stack| - 1].expanded
    ensures MarksOk(stack[..|stack| - 1], visited, ordered + [stack[|stack| - 1].node])
    ensures VisitedAccounted(stack[..|stack| - 1], visited, ordered + [stack[|stack| - 1].node])
  {
    var t := |stack| - 1;
    var x := stack[t].node;
    var st := stack[..t];
    var ord := ordered + [x];
    assert Elems(ord) == Elems(ordered) + {x};
    forall i | 0 <= i < |st| && st[i].expanded
      ensures st[i].node in visited && st[i].node !in Elems(ord)
    {
      assert stack[i] == st[i];
    }
    forall y | y in visited
      ensures y in Elems(ord) || exists i :: 0 <= i < |st| && st[i] == Entry(y, true)
    {
      if y !in Elems(ord) {
        var i :| 0 <= i < |stack| && stack[i] == Entry(y, true);
        assert i != t;
        assert st[i] == Entry(y, true);
      }
    }
  }

  lemma PopExpandedWait(g: Graph, stack: seq<Entry>, ordered: seq<NodeId>)
    requires Valid(g) && (forall i :: 0 <= i < |stack| ==> stack[i].node < |g.rules|)
    requires ChildrenWait(g, stack, ordered) && stack != []
    ensures ChildrenWait(g, stack[..|stack| - 1], ordered + [stack[|stack| - 1].node])
  {
    var t := |stack| - 1;
    var x := stack[t].node;
    var st := stack[..t];
    var ord := ordered + [x];
    assert Elems(ord) == Elems(ordered) + {x};
    forall p, c | 0 <= p < |st| && st[p].expanded && c in Children(g, st[p].node)
      ensures c in Elems(ord) || exists q :: p < q < |st| && st[q].node == c
    {
      assert stack[p] == st[p];
      if c !in Elems(ord) {
        var q :| p < q < |stack| && stack[q].node == c;
        assert q != t;
        assert st[q].node == c;
      }
    }
  }

  lemma PopExpanded(g: Graph, v: NodeId, stack: seq<Entry>, visited: set<NodeId>, ordered: seq<NodeId>)
    requires Valid(g) && v < |g.rules| && DfsState(g, v, stack, visited, ordered)
    requires stack != [] && stack[|stack| - 1].expanded
    ensures DfsState(g, v, stack[..|stack| - 1], visited, ordered + [stack[|stack| - 1].node])
  {
    PopExpandedOrdered(g, v, stack, visited, ordered);
    PopExpandedMarks(stack, visited, ordered);
    PopExpandedWait(g, stack, ordered);
  }

  // Popping an unexpanded entry whose node was already visited.

  lemma PopVisitedWait(g: Graph, stack: seq<Entry>, visited: set<NodeId>, ordered: seq<NodeId>)
    requires Valid(g) && (forall i :: 0 <= i < |stack| ==> stack[i].node < |g.rules|)
    requires ChildrenWait(g, stack, ordered) && BelowMarks(stack) && VisitedAccounted(stack, visited, ordered)
    requires stack != [] && !stack[|stack| - 1].expanded && stack[|stack| - 1].node in visited
    ensures ChildrenWait(g, stack[..|stack| - 1], ordered)
  {
    var t := |stack| - 1;
    var c := stack[t].node;
    var st := stack[..t];
    TopVisitedIsOrdered(stack, visited, ordered);
    forall p, d | 0 <= p < |st| && st[p].expanded && d in Children(g, st[p].node)
      ensures d in Elems(ordered) || exists q :: p < q < |st| && st[q].node == d
    {
      assert stack[p] == st[p];
      if d !in Elems(ordered) {
        var q :| p < q < |stack| && stack[q].node == d;
        assert q != t;
        assert st[q].node == d;
      }
    }
  }

  /** A visited node on top of the stack, unexpanded, is already ordered:
      a mark of it would lie below it, and what lies above a mark is lower
      than the marked node. */
  lemma TopVisitedIsOrdered(stack: seq<Entry>, visited: set<NodeId>, ordered: seq<NodeId>)
    requires BelowMarks(stack) && VisitedAccounted(stack, visited, ordered)
    requires stack != [] && !stack[|stack| - 1].expanded && stack[|stack| - 1].node in visited
    ensures stack[|stack| - 1].node in Elems(ordered)
  {
    var t := |stack| - 1;
    forall i | 0 <= i < t && stack[i].expanded
      ensures stack[i] != Entry(stack[t].node, true)
    {
      assert stack[t].node < stack[i].node;
    }
  }

  lemma PopVisitedMarks(stack: seq<Entry>, visited: set<NodeId>, ordered: seq<NodeId>)
    requires MarksOk(stack, visited, ordered) && VisitedAccounted(stack, visited, ordered)
    requires stack != [] && !stack[|stack| - 1].expanded
    ensures MarksOk(stack[..|stack| - 1], visited, ordered)
    ensures VisitedAccounted(stack[..|stack| - 1], visited, ordered)
  {
    var t := |stack| - 1;
    var st := stack[..t];
    forall y | y in visited
      ensures y in Elems(ordered) || exists i :: 0 <= i < |st| && st[i] == Entry(y, true)
    {
      if y !in Elems(ordered) {
        var i :| 0 <= i < |stack| && stack[i] == Entry(y, true);
        assert st[i] == Entry(y, true);
      }
    }
  }

  lemma PopVisited(g: Graph, v: NodeId, stack: seq<Entry>, visited: set<NodeId>, ordered: seq<NodeId>)
    requires Valid(g) && v < |g.rules| && DfsState(g, v, stack, visited, ordered)
    requires stack != [] && !stack[|stack| - 1].expanded && stack[|stack| - 1].node in visited
    ensures DfsState(g, v, stack[..|stack| - 1], visited, ordered)
  {
    PopVisitedWait(g, stack, visited, ordered);
    PopVisitedMarks(stack, visited, ordered);
  }

  // Popping an unvisited node `c`: it is visited, its expanded entry takes
  // its place and its children are pushed above it.

  lemma ExpandShape(g: Graph, v: NodeId, stack: seq<Entry>, children: seq<NodeId>)
    requires Valid(g) && v < |g.rules| && StackIn(g, v, stack) && stack != []
    requires forall x :: x in children <==> x in Children(g, stack[|stack| - 1].node)
    ensures var t := |stack| - 1;
            var st := stack[..t] + [Entry(stack[t].node, true)] + Pending(children);
            |st| == t + 1 + |children| && st[t] == Entry(stack[t].node, true) &&
            (forall i :: 0 <= i < t ==> st[i] == stack[i]) &&
            (forall i :: t < i < |st| ==> st[i] == Entry(children[i - t - 1], false)) &&
            (forall i :: t < i < |st| ==> st[i].node < stack[t].node) &&
            StackIn(g, v, st)
  {
    var t := |stack| - 1;
    var c := stack[t].node;
    var st := stack[..t] + [Entry(c, true)] + Pending(children);
    forall i | t < i < |st|
      ensures st[i].node in Children(g, c) && st[i].node in Descendants(g, v) && st[i].node < |g.rules|
    {
      assert st[i] == Entry(children[i - t - 1], false);
      assert children[i - t - 1] in children;
      DescendantsClosed(g, v, c, st[i].node);
    }
    forall i | 0 <= i < |st|
      ensures st[i].node in Descendants(g, v) && st[i].node < |g.rules|
    {
      if i < t {
        assert st[i] == stack[i];
      }
    }
  }

  lemma ExpandMarks(stack: seq<Entry>, visited: set<NodeId>, ordered: seq<NodeId>, st: seq<Entry>)
    requires MarksOk(stack, visited, ordered) && VisitedAccounted(stack, visited, ordered)
    requires stack != [] && !stack[|stack| - 1].expanded && stack[|stack| - 1].node !in visited
    requires Elems(ordered) <= visited
    requires var t := |stack| - 1;
             |st| > t && st[t] == Entry(stack[t].node, true) &&
             (forall i :: 0 <= i < t ==> st[i] == stack[i]) &&
             (forall i :: t < i < |st| ==> !st[i].expanded)
    ensures MarksOk(st, visited + {stack[|stack| - 1].node}, ordered)
    ensures VisitedAccounted(st, visited + {stack[|stack| - 1].node}, ordered)
  {
    var t := |stack| - 1;
    var c := stack[t].node;
    forall y | y in visited + {c}
      ensures y in Elems(ordered) || exists i :: 0 <= i < |st| && st[i] == Entry(y, true)
    {
      if y == c {
        assert st[t] == Entry(y, true);
      } else if y !in Elems(ordered) {
        var i :| 0 <= i < |stack| && stack[i] == Entry(y, true);
        assert i != t;
        assert st[i] == Entry(y, true);
      }
    }
    forall i | 0 <= i < |st| && st[i].expanded
      ensures st[i].node in visited + {c} && st[i].node !in Elems(ordered)
    {
      if i < t {
        assert st[i] == stack[i];
      }
    }
    forall i, j | 0 <= i < j < |st| && st[i].expanded && st[j].expanded
      ensures st[i].node != st[j].node
    {
      assert j <= t;
      if j < t {
        assert st[i] == stack[i] && st[j] == stack[j];
      } else {
        assert st[i] == stack[i];
      }
    }
  }

  lemma ExpandWait(g: Graph, stack: seq<Entry>, ordered: seq<NodeId>, children: seq<NodeId>, st: seq<Entry>)
    requires Valid(g) && (forall i :: 0 <= i < |stack| ==> stack[i].node < |g.rules|)
    requires ChildrenWait(g, stack, ordered) && BelowMarks(stack) && stack != []
    requires forall x :: x in children <==> x in Children(g, stack[|stack| - 1].node)
    requires var t := |stack| - 1;
             |st| == t + 1 + |children| && st[t] == Entry(stack[t].node, true) &&
             (forall i :: 0 <= i < t ==> st[i] == stack[i]) &&
             (forall i :: t < i < |st| ==> st[i] == Entry(children[i - t - 1], false)) &&
             (forall i :: t < i < |st| ==> st[i].node < stack[t].node)
    requires forall i :: 0 <= i < |st| ==> st[i].node < |g.rules|
    ensures ChildrenWait(g, st, ordered) && BelowMarks(st)
  {
    var t := |stack| - 1;
    var c := stack[t].node;
    forall p, d | 0 <= p < |st| && st[p].expanded && d in Children(g, st[p].node)
      ensures d in Elems(ordered) || exists q :: p < q < |st| && st[q].node == d
    {
      if p == t {
        assert d in children;
        var k :| 0 <= k < |children| && children[k] == d;
        assert st[t + 1 + k].node == d;
      } else {
        assert p < t && st[p] == stack[p];
        if d !in Elems(ordered) {
          var q :| p < q < |stack| && stack[q].node == d;
          assert st[q].node == d;
        }
      }
    }
    forall p, q | 0 <= p < q < |st| && st[p].expanded
      ensures st[q].node < st[p].node
    {
      if p < t {
        assert st[p] == stack[p];
        assert stack[t].node < stack[p].node;
        if q < t {
          assert st[q] == stack[q];
        }
      }
    }
  }

  lemma Expand(g: Graph, v: NodeId, stack: seq<Entry>, visited: set<NodeId>, ordered: seq<NodeId>,
               children: seq<NodeId>)
    requires Valid(g) && v < |g.rules| && DfsState(g, v, stack, visited, ordered)
    requires stack != [] && !stack[|stack| - 1].expanded && stack[|stack| - 1].node !in visited
    requires forall x :: x in children <==> x in Children(g, stack[|stack| - 1].node)
    ensures var c := stack[|stack| - 1].node;
            DfsState(g, v, stack[..|stack| - 1] + [Entry(c, true)] + Pending(children), visited + {c}, ordered)
  {
    var t := |stack| - 1;
    var c := stack[t].node;
    var st := stack[..t] + [Entry(c, true)] + Pending(children);
    ExpandShape(g, v, stack, children);
    ExpandMarks(stack, visited, ordered, st);
    ExpandWait(g, stack, ordered, children, st);
    assert c in Descendants(g, v);
  }

  /** `for child in value.children: stack.append((child, False))`. */
  method PushChildren(stack: seq<Entry>, children: seq<NodeId>) returns (r: seq<Entry>)
    ensures r == stack + Pending(children)
  {
    r := stack;
    for i := 0 to |children|
      invariant r == stack + Pending(children[..i])
    {
      assert children[..i + 1] == children[..i] + [children[i]];
      PendingAppend(children[..i], children[i]);
      r := r + [Entry(children[i], false)];
    }
    assert children[..|children|] == children;
  }

  lemma PendingAppend(cs: seq<NodeId>, c: NodeId)
    ensures Pending(cs + [c]) == Pending(cs) + [Entry(c, false)]
  {
  }

  /** When the stack is empty, the ordered nodes are exactly the descendants. */
  lemma DfsDone(g: Graph, v: NodeId, visited: set<NodeId>, ordered: seq<NodeId>)
    requires Valid(g) && v < |g.rules| && DfsState(g, v, [], visited, ordered)
    ensures Elems(ordered) == Descendants(g, v)
  {
    assert visited == Elems(ordered);
    forall d | d in visited && d < |g.rules|
      ensures Children(g, d) <= visited
    {
      var j :| 0 <= j < |ordered| && ordered[j] == d;
      assert Elems(ordered[..j]) <= Elems(ordered);
    }
    DescendantsLeast(g, v, visited);
  }

  lemma DfsStart(g: Graph, v: NodeId)
    requires Valid(g) && v < |g.rules|
    ensures DfsState(g, v, [Entry(v, false)], {}, [])
  {
    assert v in Descendants(g, v);
    assert Elems([]) == {};
  }

  /** One round of the depth-first loop: pop an entry and act on it. */
  method DfsStep(g: Graph, v: NodeId, stack: seq<Entry>, visited: set<NodeId>, ordered: seq<NodeId>)
    returns (stack': seq<Entry>, visited': set<NodeId>, ordered': seq<NodeId>)
    requires Valid(g) && v < |g.rules| && DfsState(g, v, stack, visited, ordered) && stack != []
    ensures DfsState(g, v, stack', visited', ordered')
    ensures visited <= visited' <= Descendants(g, v)
    ensures visited' == visited ==> |stack'| < |stack|
  {
    var top := stack[|stack| - 1];
    if top.expanded {
      PopExpanded(g, v, stack, visited, ordered);
      stack', visited', ordered' := stack[..|stack| - 1], visited, ordered + [top.node];
    } else if top.node in visited {
      PopVisited(g, v, stack, visited, ordered);
      stack', visited', ordered' := stack[..|stack| - 1], visited, ordered;
    } else {
      var children := ListOf(Children(g, top.node));
      Expand(g, v, stack, visited, ordered, children);
      visited', ordered' := visited + {top.node}, ordered;
      stack' := PushChildren(stack[..|stack| - 1] + [Entry(top.node, true)], children);
    }
  }

  /** `_get_reverse_topologically_ordered_all_descendats`: an iterative
      depth-first search that appends a node once all its children have been
      appended, then reverses. The result lists exactly the descendants of
      `v`, once each, in a topological order. */
  method DepthFirstOrder(g: Graph, v: NodeId) returns (order: seq<NodeId>)
    requires Valid(g) && v < |g.rules|
    ensures InGraph(g, order) && Distinct(order) && IsTopoOrder(g, order)
    ensures Elems(order) == Descendants(g, v)
  {
    ghost var D := Descendants(g, v);
    var ordered: seq<NodeId> := [];
    var visited: set<NodeId> := {};
    var stack := [Entry(v, false)];
    DfsStart(g, v);
    while stack != []
      invariant DfsState(g, v, stack, visited, ordered) && visited <= D
      decreases |D - visited|, |stack|
    {
      ghost var before := visited;
      stack, visited, ordered := DfsStep(g, v, stack, visited, ordered);
      if visited != before {
        var x :| x in visited && x !in before;
        assert D - before == (D - visited) + (D - before - (D - visited));
        assert x in D - before - (D - visited);
      }
    }
    DfsDone(g, v, visited, ordered);
    assert DfsState(g, v, [], visited, ordered);
    ReverseIsTopo(g, ordered);
    order := Reverse(ordered);
  }

  /** `v.backward()`: runs each node's `_backward` in the depth-first order.
      The gradients are those of the reference result when nothing raises,
      and it raises exactly when the reference does. */
  method Backward(arena: Arena, num: Numerics, v: NodeId) returns (raised: Option<Error>, order: seq<NodeId>)
    requires arena.Valid() && v < |arena.rules|
    modifies arena
    ensures arena.Valid() && arena.data == old(arena.data) && arena.rules == old(arena.rules)
    ensures InGraph(arena.Snapshot(num), order) && Distinct(order) && IsTopoOrder(arena.Snapshot(num), order)
    ensures Elems(order) == Descendants(arena.Snapshot(num), v)
    ensures Outcome(arena.grad, raised) == Propagate(arena.Snapshot(num), order, old(arena.grad))
    ensures raised.Some? <==> !AllDifferentiable(arena.Snapshot(num), Descendants(arena.Snapshot(num), v))
    ensures raised == None ==> arena.grad == BackwardSpec(arena.Snapshot(num), v, old(arena.grad)).grad
  {
    var g := arena.Snapshot(num);
    order := DepthFirstOrder(g, v);
    raised := arena.RunAll(num, order);
    TopoOrderMeetsSpec(g, v, order, old(arena.grad));
    BackwardSpecRaises(g, v, old(arena.grad));
    PropagateRaisesOn(g, order, old(arena.grad));
  }
}
