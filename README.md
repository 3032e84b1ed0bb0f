# neural-nets core, modelled in Dafny

This project models the core of the `neural-nets` Python repository in
Dafny and proves the contracts and lemmas listed below. The model departs
from the source where "## Left out" says so: it merges with the corrected
BPE pass and dispatches `_backward` positionally (both under "## Findings"),
it gives the rows of the `Matrix` of `lib/original_backend/linear_algebra.py` value semantics, and its numbers
are reals.

- **Scalar reverse-mode autodiff engine.** `Value` nodes record how they were made. `Derivative` gives each node's local partials. `backward()` orders the nodes reachable from a node and runs each one's `_backward` once. There are two orderings: recursive collection with Kahn-style rounds (`lib/value.py`), and an explicit-stack depth-first search (`lib/fast/value.py`).
- **Containers.**
  - The `Vector`/`Matrix` of `lib/linear_algebra.py`, over nodes.
  - The `Vector`/`Matrix` of `lib/original_backend/linear_algebra.py`, over an abstract node type or plain numbers.
  - The teaching containers `Scalar`/`Vector`/`Matrix`/`Tensor` of `basics/linear_algebra.py`.
- **Optimizers.** SGD, momentum, AdaGrad, RMSProp and Adam.
- **BPE tokenizer.** Byte-pair encoding over characters.
- **Helpers.** Data loaders, losses and preprocessing.

Numbers are reals. `exp`, `ln` and powers with a non-integer exponent are uninterpreted functions, passed in as a `Numerics` value. Integer powers are exact. A float division by zero, and zero to a negative power, raise `ZeroDivisionError`.

Node identity (a `uuid` in `lib/value.py`, `id` in `lib/fast/value.py`) is the node's index in an arena. The arena is a class whose `data`, `grad` and `rules` sequences the operations update in place. An operation can only refer to nodes created before it, so every graph is acyclic by construction.

`backward()` has a reference meaning, `Backprop.BackwardSpec`: propagation over the node's descendants, highest identity first. The model proves:

- every topological order gives that result (`Backprop.TopoOrderMeetsSpec`);
- the result satisfies the chain-rule equations (`Backprop.BackwardSpecSolves`);
- the equations have one solution (`Backprop.SolutionUnique`).

Both engines' `Backward` are proved to compute the reference result. Each raises exactly when the reference does.

Python errors are a `Result` datatype (`Common.Error`: `IndexError`, `TypeError`, `ValueError`, `ZeroDivisionError`, `AssertionError`, `AttributeError`). They are modelled wherever the source raises one on inputs of the right types: `[][0]`, a failed `assert`, `list.index` of a missing value, a short row.

## Model

| member | source | states |
|---|---|---|
| Common.Index | lib/np_backend/processing.py:45-46 | `list.index(x)`: ValueError exactly when `x` is missing; otherwise the first position holding `x` |
| Common.PyIndex | lib/linear_algebra.py:170-171 | a Python list index: valid exactly in `-n..n-1`, negative keys counting from the end |
| Common.PySlice | lib/gd_data_loaders.py:47-53 | Python's `s[lo:hi]`: bounds counted from the end when negative, clamped to the list, empty when they cross |
| Common.Repeated | lib/linear_algebra.py:192-196 | `row * n`: `n` copies of the row end to end |
| Backprop.Reverse | lib/value.py:144 | `reversed`: same length, entry `i` is entry `n - 1 - i` |
| Calculus.PyPow | lib/calculus.py:36-38 | Python float `x ** p`: raises ZeroDivisionError exactly for zero to a negative power; an integral exponent gives the exact power (or its inverse for a negative one) |
| Calculus.OtherVar | lib/calculus.py:23-24 | `_other_var` raises IndexError exactly when every entry of `in_vars` is the node itself; otherwise it returns the first entry that is a different node or a number (identity comparison) |
| Calculus.Derivative | lib/calculus.py:26-50 | the contribution is `out_var.grad` (as read when called) times `LocalPartial`, the op's local partial; an error in the partial is the result |
| Calculus.OtherVarOfPair | lib/calculus.py:23-24 | on a two-entry list `_other_var` returns the other entry, and raises IndexError when both entries are the same node |
| Calculus.AddAndNegPartials | lib/calculus.py:29-30 | ADD contributes `grad` to either operand; NEG contributes `-grad` |
| Calculus.MulPartialIsOtherData | lib/calculus.py:31-33 | for a product of two distinct nodes, each operand gets `grad` times the OTHER node's data |
| Calculus.MulSelfRaises | lib/calculus.py:23-24 | as written: a node multiplied by itself makes the MUL derivative raise IndexError (see Findings) |
| Calculus.PowPartial | lib/calculus.py:36-38 | POW by a constant `p` contributes `grad * p * x ** (p - 1)`, and raises exactly when that power raises |
| Calculus.ExpAndLnPartials | lib/calculus.py:39-42 | EXP contributes `grad * exp(x)`; LN contributes `grad / (x + 1e-10)` and raises ZeroDivisionError when that sum is 0 |
| Calculus.MaxMinPartials | lib/calculus.py:43-48 | MAX passes the gradient iff `x >= c`, MIN iff `x <= c`; a tie passes it for both |
| Calculus.UnrecognisedRaises | lib/calculus.py:27 | an unrecognised op leaves the partial None, so the product raises TypeError and never gives a silent 0 |
| Calculus.OtherAt | lib/calculus.py:23-24 | the positional variant of `_other_var`: the other entry of a pair; IndexError only without one |
| Calculus.PositionalAgrees | lib/calculus.py:26-50 | on every operand list the operators build, `LocalPartialAt`, the positional dispatcher used by backward, gives the source's partial wherever the source does not raise |
| Calculus.SquarePartialAt | lib/calculus.py:31-33 | corrected: for `x * x` each occurrence gets partial `x.data` |
| Backprop.InVars | lib/value.py:116-123 | the operands a node's `_backward` loops over refer only to earlier nodes |
| Backprop.Children | lib/value.py:31-35 | `children` are the node operands, all of them earlier nodes |
| Backprop.DescendantsClosed | lib/value.py:146-149 | `Descendants`, what `_get_all_descendats` collects, is closed under `children` |
| Backprop.DescendantsTransitive | lib/value.py:146-149 | a descendant's descendants are descendants |
| Backprop.DescendantsLeast | lib/value.py:146-149 | the descendants are the least set holding the node and closed under `children`: nothing unreachable is collected |
| Backprop.DescendantsUnfold | lib/value.py:146-149 | the descendants are the node plus the descendants of each child, as the recursion adds them |
| Backprop.ChildrenAreStrictDescendants | lib/value.py:127-132 | every child is among a node's strict descendants (`descendants_map` minus the node) |
| Backprop.StepFrom | lib/value.py:119-122 | the `_backward` loop from an operand position on adds `grad * partial` to each node operand, keeping earlier updates when a partial raises; the number of gradients is unchanged |
| Backprop.Step | lib/value.py:116-123 | `_backward` keeps the length of the gradient list |
| Backprop.Propagate | lib/value.py:156-159 | running `_backward` along an order keeps the length of the gradient list |
| Backprop.ReverseIsTopo | lib/value.py:144 | `reversed` of a children-first order is a topological order of the same nodes, once each |
| Backprop.StepFromAdds | lib/value.py:119-122 | a step whose partials do not raise adds `grad` times the summed partials to every gradient; `a + a` adds twice |
| Backprop.StepFromFrame | lib/value.py:120-122 | a step changes only the gradients of the node's operands; plain-number operands are skipped |
| Backprop.StepFromRaises | lib/value.py:122 | a step whose some partial raises raises, whatever the gradients |
| Backprop.StepEffect | lib/value.py:116-123 | `_backward` raises exactly when some local partial raises, and otherwise adds `grad[c]` times the weight to each gradient |
| Backprop.PropagateFrame | lib/value.py:156-159 | a pass changes only gradients of children of visited nodes |
| Backprop.PropagateRaises | lib/value.py:156-159 | a pass raises exactly when some visited node has a partial that raises |
| Backprop.PropagateRaisesOn | lib/value.py:156-159 | whether a pass raises depends only on the set of visited nodes |
| Backprop.SolutionUnique | lib/value.py:156-159 | the chain-rule equations over a set of nodes have one solution |
| Backprop.PropagateSolves | lib/value.py:156-159 | a pass along a topological order that raises nothing solves the chain-rule equations |
| Backprop.OrderIndependent | lib/value.py:156-159 | any two topological orders of the same nodes give identical outcomes |
| Backprop.Descending | lib/value.py:125-144 | highest identity first lists exactly the nodes of a set, strictly decreasing |
| Backprop.DescendingIsTopo | lib/value.py:125-144 | highest identity first is a topological order of any set of nodes |
| Backprop.DescendingOrderOf | lib/value.py:151-154 | the reference order of a node's descendants is a topological order of exactly them |
| Backprop.BackwardSpecRaises | lib/value.py:156-159 | `BackwardSpec`, the reference backward, raises exactly when some descendant's partial raises |
| Backprop.BackwardSpecSolves | lib/value.py:156-159 | otherwise each descendant's gradient is its initial value plus, over its parents among the descendants, each parent's final gradient times the local partial (chain rule) |
| Backprop.TopoOrderMeetsSpec | lib/value.py:156-159 | any topological order of the descendants gives the reference outcome, raising exactly when it raises |
| Nodes.Arena.Snapshot | lib/value.py:9-14 | the arena seen by the backward pass is an acyclic graph |
| Nodes.Arena.constructor | lib/value.py:9-14 | an empty arena |
| Nodes.Arena.Push | lib/value.py:12-23 | a new node is appended with the next identity and gradient 0 (the lazy default); existing nodes are untouched |
| Nodes.Arena.Leaf | lib/value.py:12-23 | `Value(x)`: a leaf holding `x`, gradient 0, no operands |
| Nodes.Arena.Promote | lib/fast/value.py:47-48 | a number becomes a fresh leaf holding it; a node is used as it is, with nothing added |
| Nodes.Arena.Add | lib/value.py:46-50 | the new node holds `a.data + b.data` and records ADD over `[a, b]` |
| Nodes.Arena.Mul | lib/value.py:31-35 | the new node holds `a.data * b.data` and records MUL over `[a, b]` |
| Nodes.Arena.Neg | lib/value.py:61-65 | the new node holds `-a.data` and records NEG over `[a]` |
| Nodes.Arena.Pow | lib/value.py:67-71 | the new node holds `a.data ** p` and records POW over `[a, p]`; zero to a negative power raises before any node is made |
| Nodes.Arena.Div | lib/value.py:37-40 | `a / b` is `a * b ** -1`: a zero divisor raises ZeroDivisionError; otherwise the quotient times `b.data` is `a.data` |
| Nodes.Arena.Exp | lib/value.py:73-77 | the new node holds `exp(a.data)` and records EXP |
| Nodes.Arena.Ln | lib/value.py:79-83 | the new node holds `ln(a.data)` (no epsilon forward) and records LN |
| Nodes.Arena.Max | lib/value.py:85-90 | the new node holds the larger of `a.data` and `c`, `a.data` on a tie, and records MAX over `[a, c]` |
| Nodes.Arena.Min | lib/value.py:92-97 | the new node holds the smaller of `a.data` and `c`, `a.data` on a tie, and records MIN over `[a, c]` |
| Nodes.Arena.ZeroGrad | lib/value.py:113-114 | only that node's gradient becomes 0 |
| Nodes.Arena.SetGrad | lib/optimizers.py:12 | only that node's gradient is set |
| Nodes.Arena.SubtractFromData | lib/optimizers.py:18 | only that node's data decreases by the step |
| Nodes.Arena.RunBackward | lib/value.py:119-122 | the in-place `_backward` loop leaves exactly the gradients and exception of the reference step |
| Nodes.Arena.RunAll | lib/value.py:158-159 | the in-place loop over an order leaves exactly the outcome of the reference propagation |
| ValueEngine.Mul | lib/value.py:31-35 | a plain-number operand has no `.data`: AttributeError with the arena unchanged; two nodes give their product node |
| ValueEngine.Add | lib/value.py:46-50 | as for `*`: a number raises AttributeError, two nodes give their sum node |
| ValueEngine.RAdd | lib/value.py:52-56 | `other + a`: a number is made a leaf first; the sum lists `a` first |
| ValueEngine.Sub | lib/value.py:58-59 | `a - b` is `a + (-b)`; a number operand is negated as a number and then raises AttributeError |
| ValueEngine.TrueDiv | lib/value.py:37-40 | a number is promoted; raises ZeroDivisionError exactly for a zero divisor; earlier nodes are untouched |
| ValueEngine.RTrueDiv | lib/value.py:42-44 | `x / a` raises exactly when `a.data` is 0; otherwise the quotient times `a.data` is `x` |
| ValueEngine.CollectDescendants | lib/value.py:146-149 | the recursion adds exactly the node's descendants to the set |
| ValueEngine.Without | lib/value.py:139 | `[i for i in items if i not in new]` keeps exactly the other items, distinct if they were, and is shorter when something was removed |
| ValueEngine.ReadyExists | lib/value.py:134-142 | while nodes remain, one of them has no unordered strict descendant: every round orders at least one node |
| ValueEngine.AppendReady | lib/value.py:135-142 | one round of the loop keeps the ordering invariant |
| ValueEngine.ChildrenFirstAppend | lib/value.py:142 | appending nodes whose children are already ordered keeps children first |
| ValueEngine.DescendantsMap | lib/value.py:127-132 | `descendants_map[i]` is exactly the strict descendants of `i`, for exactly the items |
| ValueEngine.ReadyNodes | lib/value.py:135-138 | the round's new nodes are exactly the remaining ones with no strict descendant left |
| ValueEngine.OrderTopologically | lib/value.py:125-144 | the result lists the items once each, in a topological order |
| ValueEngine.Backward | lib/value.py:151-159 | the order is a topological order of exactly the descendants; the gradients are those of the reference backward when nothing raises, and it raises exactly when the reference does |
| FastEngine.Add | lib/fast/value.py:46-57 | a number is promoted to a leaf first; the sum node lists `a` first |
| FastEngine.Mul | lib/fast/value.py:59-70 | a number is promoted first; the product node lists `a` first |
| FastEngine.Sub | lib/fast/value.py:82-85 | `a - b` is `a + (-b)` after promotion: the new node holds the difference and is an ADD over `a` and the negation node |
| FastEngine.RSub | lib/fast/value.py:87-90 | `x - a` is `Value(x) + (-a)`: exactly three new nodes |
| FastEngine.TrueDiv | lib/fast/value.py:72-75 | `a * b ** -1` after promotion; raises exactly for a zero divisor |
| FastEngine.RTrueDiv | lib/fast/value.py:77-80 | `Value(x) / a`: raises exactly when `a.data` is 0; otherwise the quotient times `a.data` is `x` |
| FastEngine.Sqrt | lib/fast/value.py:41-42 | `a ** 0.5` succeeds exactly when that power does |
| FastEngine.PushChildren | lib/fast/value.py:167-168 | every child is pushed unexpanded, in iteration order |
| FastEngine.DfsStep | lib/fast/value.py:159-168 | one round keeps the search invariant and either visits a new descendant or shrinks the stack |
| FastEngine.DfsDone | lib/fast/value.py:159-169 | when the stack is empty the ordered nodes are exactly the descendants |
| FastEngine.DepthFirstOrder | lib/fast/value.py:156-169 | the result lists exactly the descendants, once each, in a topological order |
| FastEngine.Backward | lib/fast/value.py:171-174 | same guarantee as the other engine: reference gradients when nothing raises, and raises exactly when the reference does |
| Scenarios.Reset | lib/value.py:113-114 | a reference reset: `zero_grad()` on every descendant of the loss, then the loss's gradient set to 1; every other node keeps its gradient |
| Scenarios.BackwardSpecFrame | lib/value.py:156-159 | backward changes no gradient outside the descendants |
| Scenarios.PropagateLocal | lib/value.py:156-159 | gradients that agree on a set closed under children stay in agreement after a pass inside it |
| Scenarios.BackwardSpecLocal | lib/value.py:156-159 | backward from a node reads and writes only its descendants' gradients: gradient lists that agree there give the same error and the same gradients there |
| Scenarios.SeededMeetsReset | lib/optimizers.py:8-13 | `step` zeroes only the tracked values before `loss.backward()`; when every untracked descendant of the loss holds gradient 0 (a fresh forward pass), backward then gives the descendants what it gives after the reference reset, error included |
| Scenarios.ResetForgetsHistory | lib/value.py:156-159 | after the reference reset, backward gives the descendants the same gradients and the same error whatever they held before |
| Scenarios.ResetIdempotent | lib/value.py:156-159 | the reference reset and backward, repeated without a new forward pass, give exactly what the first pass gave |
| Scenarios.LeafStep | lib/value.py:16-23 | a leaf's default `_backward` changes nothing |
| Scenarios.PairStep | lib/value.py:119-122 | a two-operand node's `_backward` adds `grad * p` to the first operand, then `grad * q` to the second |
| Scenarios.EverythingBelow | lib/value.py:156-159 | when every node is below the sink, backward visits every node, highest first |
| Scenarios.SumGradients | lib/value.py:46-50 | `c = a + b` gives both operands gradient 1 |
| Scenarios.ProductGradients | lib/value.py:31-35 | `c = a * b` gives each operand the other's data |
| Scenarios.ChainGradients | lib/value.py:156-159 | `d = a * b + a` gives `a` the gradient `b.data + 1`, one contribution per path |
| Scenarios.SquareGradients | lib/calculus.py:31-33 | corrected: `x * x` gives `x` the gradient `2 * x.data` |
| LinearAlgebra.DataExtends | lib/linear_algebra.py:6 | adding nodes changes nothing existing nodes hold |
| LinearAlgebra.Wrap | lib/linear_algebra.py:6 | each entry's data is kept; nodes are kept by identity; numbers become fresh leaves |
| LinearAlgebra.Apply | lib/linear_algebra.py:24 | one `+` or `*` of two nodes appends exactly one node holding the result |
| LinearAlgebra.Zip | lib/linear_algebra.py:23-27 | the entrywise result is as long as the shorter operand, entry `i` combining entries `i`, with no error for unequal lengths |
| LinearAlgebra.Mapped | lib/linear_algebra.py:109-156 | a unary entry operation raises exactly for zero to a negative power |
| LinearAlgebra.ApplyOne | lib/linear_algebra.py:115-119 | one entry through the operation: raises exactly when it does, else a node holding the result |
| LinearAlgebra.MapRow | lib/linear_algebra.py:140-147 | `[f(v) for v in row]` raises exactly when some entry does; otherwise one node per entry, holding `f` of its data |
| LinearAlgebra.SumNodes | lib/linear_algebra.py:33 | Python's `sum` over nodes: the data is the real sum; an empty list gives the plain number 0 and adds nothing |
| LinearAlgebra.NewVector | lib/linear_algebra.py:5-6 | one entry per input, data kept, nodes kept by identity |
| LinearAlgebra.VectorCombine | lib/linear_algebra.py:23-27 | `v + w` and `v * w` are entrywise over the shorter length |
| LinearAlgebra.VectorNeg | lib/linear_algebra.py:35-36 | every entry negated, same length |
| LinearAlgebra.SquaredDeviations | lib/linear_algebra.py:40 | entry `i` is `(s[i] - m)` squared |
| LinearAlgebra.Mean | lib/linear_algebra.py:32-33 | an empty vector raises ZeroDivisionError; otherwise the arithmetic mean of the data |
| LinearAlgebra.SquareIsTimes | lib/linear_algebra.py:40 | `x ** 2` is exactly `x * x` |
| LinearAlgebra.Deviations | lib/linear_algebra.py:40 | the list comprehension holds the squared deviations from the mean node's data |
| LinearAlgebra.Var | lib/linear_algebra.py:38-40 | an empty vector raises ZeroDivisionError; otherwise the population variance of the data |
| LinearAlgebra.Std | lib/linear_algebra.py:42-43 | raises exactly for an empty vector; otherwise `var ** 0.5` |
| LinearAlgebra.Products | lib/linear_algebra.py:46 | entrywise products over the shorter length |
| LinearAlgebra.DotProd | lib/linear_algebra.py:45-46 | the sum of entrywise products over the shorter length; the plain number 0 exactly when either vector is empty |
| LinearAlgebra.ZeroGrads | lib/linear_algebra.py:48-50 | exactly the listed nodes' gradients become 0 |
| LinearAlgebra.VectorZeroGrad | lib/linear_algebra.py:48-50 | exactly the vector's nodes' gradients become 0; data and operations unchanged |
| LinearAlgebraMatrix.ColumnData | lib/linear_algebra.py:173-177 | entry `i` is the data of entry `k` of row `i` |
| LinearAlgebraMatrix.Matrix.Of | lib/linear_algebra.py:59-63 | a matrix over existing nodes keeps the rows as given |
| LinearAlgebraMatrix.Matrix.constructor | lib/linear_algebra.py:59-63 | each row is wrapped like a vector: same shape, data kept, nodes kept by identity, numbers made leaves |
| LinearAlgebraMatrix.Matrix.Dims | lib/linear_algebra.py:69-70 | IndexError exactly without rows; otherwise the row count and the first row's length |
| LinearAlgebraMatrix.Matrix.CombineMatrix | lib/linear_algebra.py:88-92 | rows and entries paired with `zip`: each dimension is the shorter one, each entry combines the paired data |
| LinearAlgebraMatrix.Matrix.AddToRows | lib/linear_algebra.py:93-97 | a vector is added to every row, each row cut to the shorter length |
| LinearAlgebraMatrix.Matrix.AddNode | lib/linear_algebra.py:98-102 | a node is added to every entry, same shape |
| LinearAlgebraMatrix.Matrix.Add | lib/linear_algebra.py:81-104 | the three-way dispatch of `__add__` and `__radd__`: matrix entrywise, vector per row, node or number per entry |
| LinearAlgebraMatrix.Matrix.Map | lib/linear_algebra.py:109-156 | negation, power, exp and ln keep the shape, one new node per entry; only a power can raise |
| LinearAlgebraMatrix.Matrix.Sub | lib/linear_algebra.py:106-107 | `self + (-other)`: each entry holds the difference over the dispatched shape |
| LinearAlgebraMatrix.Matrix.TrueDiv | lib/linear_algebra.py:127-128 | a zero anywhere in the divisor raises ZeroDivisionError; otherwise entrywise quotients over the shorter shape |
| LinearAlgebraMatrix.Matrix.RTrueDiv | lib/linear_algebra.py:130-132 | no rows raises IndexError; otherwise a constant matrix of `dims()` divided entrywise by `self` |
| LinearAlgebraMatrix.Matrix.Max | lib/linear_algebra.py:134-138 | every entry is replaced in place by a node holding the larger of its data and `num`; the receiver itself is returned |
| LinearAlgebraMatrix.Matrix.ZeroGrad | lib/linear_algebra.py:158-161 | exactly the entries' gradients become 0 |
| LinearAlgebraMatrix.Matrix.AllValues | lib/linear_algebra.py:163-168 | the entries flattened row by row |
| LinearAlgebraMatrix.Matrix.Row | lib/linear_algebra.py:170-171 | the row at a Python index, negative from the end; IndexError outside |
| LinearAlgebraMatrix.Matrix.Col | lib/linear_algebra.py:173-177 | entry `key` of every row; IndexError exactly when some row is too short |
| LinearAlgebraMatrix.Matrix.RowSum | lib/linear_algebra.py:179-183 | a one-column matrix whose row `i` holds the sum of row `i` |
| LinearAlgebraMatrix.Matrix.ColSum | lib/linear_algebra.py:185-190 | IndexError without rows or with a row shorter than the first; otherwise entry `k` is the sum of column `k` |
| LinearAlgebraMatrix.Matrix.Column | lib/linear_algebra.py:205 | entry `k` of every row |
| LinearAlgebraMatrix.Matrix.Broadcast | lib/linear_algebra.py:192-196 | every row repeated `n` times end to end, sharing the nodes |
| LinearAlgebraMatrix.Matrix.MatMul | lib/linear_algebra.py:198-208 | errors as the source raises them (no rows, mismatched inner dims, a short row of `other`); otherwise entry `(i, j)` is the sum over `zip` of row `i` and column `j` |
| LinearAlgebraMatrix.ProductRow | lib/linear_algebra.py:202-207 | one row of the product, entry `j` the zipped dot product with column `j` |
| LinearAlgebraMatrix.ProductRows | lib/linear_algebra.py:201-208 | every row of the product |
| LinearAlgebraMatrix.Matrix.Backward | lib/linear_algebra.py:210-213 | `backward()` on every entry, row by row, with the outcome of doing so in turn |
| LinearAlgebraMatrix.BackwardAll | lib/linear_algebra.py:211-213 | backward on each node in turn, stopping at the first that raises |
| OriginalBackend.Zip | lib/original_backend/linear_algebra.py:31 | `zip` comprehension: as long as the shorter list, entry `i` pairs entries `i` |
| OriginalBackend.Each | lib/original_backend/linear_algebra.py:57 | a comprehension over every entry, same length |
| OriginalBackend.NewVector | lib/original_backend/linear_algebra.py:7-12 | an empty list raises IndexError; `values[0]` alone decides whether to copy or wrap every entry |
| OriginalBackend.NewVectorStable | lib/original_backend/linear_algebra.py:7-12 | re-wrapping a vector's entries gives the same entries |
| OriginalBackend.VectorCombine | lib/original_backend/linear_algebra.py:29-42 | a Vector is paired by `zip`, a Value combined with every entry, anything else gives None |
| OriginalBackend.VectorNeg | lib/original_backend/linear_algebra.py:56-57 | every entry negated |
| OriginalBackend.Negate | lib/original_backend/linear_algebra.py:36 | `-other` for each kind of operand |
| OriginalBackend.VectorSub | lib/original_backend/linear_algebra.py:35-36 | `v + (-other)`: entry by entry for a Vector, from every entry for a Value, None for a number |
| OriginalBackend.VectorTrueDiv | lib/original_backend/linear_algebra.py:44-45 | a Vector divisor raises TypeError, the number 0 ZeroDivisionError, another number gives None, a Value is inverted into every entry |
| OriginalBackend.SumOfAppend | lib/original_backend/linear_algebra.py:50-51 | `SumOf`, Python's `sum`: one more entry is one more `+` on the right, starting from the number 0 |
| OriginalBackend.SumOfExact | lib/original_backend/linear_algebra.py:50-51 | when the entry operations are exact arithmetic, `sum` of entries stands for the sum of their numbers |
| OriginalBackend.MeanExact | lib/original_backend/linear_algebra.py:53-54 | when the entry operations are exact arithmetic, `mean()` stands for the arithmetic mean of the entries' numbers |
| OriginalBackend.Squares | lib/original_backend/linear_algebra.py:61 | entry `i` is `(v_i - mean) ** 2` |
| OriginalBackend.SquaresExact | lib/original_backend/linear_algebra.py:61 | when the entry operations are exact arithmetic, the list `var()` sums stands for the squared deviations of the entries' numbers from their mean |
| OriginalBackend.VarExact | lib/original_backend/linear_algebra.py:59-61 | when the entry operations are exact arithmetic, `var()` stands for the population variance of the entries' numbers |
| OriginalBackend.StdExact | lib/original_backend/linear_algebra.py:63-64 | `std()` stands for the square root of that variance, for whatever root the entries' `** 0.5` computes |
| OriginalBackend.DotProdExact | lib/original_backend/linear_algebra.py:66-67 | when the entry operations are exact arithmetic, `dotprod` stands for the sum of the products of the two lists of numbers, over the shorter length |
| OriginalBackend.NewMatrix | lib/original_backend/linear_algebra.py:74-82 | no rows or an empty first row raise IndexError; `values[0][0]` alone decides whether to keep or wrap |
| OriginalBackend.NewMatrixStable | lib/original_backend/linear_algebra.py:74-82 | re-wrapping a matrix's rows keeps them |
| OriginalBackend.MatrixMap | lib/original_backend/linear_algebra.py:133-186 | the shape of `-m`, `m ** p`, `exp`, `ln`: same shape, `f` at every entry |
| OriginalBackend.MatrixAdd | lib/original_backend/linear_algebra.py:100-123 | Matrix entrywise over `zip`, Vector per row, Value or number per entry |
| OriginalBackend.Promoted | lib/original_backend/linear_algebra.py:122-123 | a number is made one `Value` before being added |
| OriginalBackend.MatrixSub | lib/original_backend/linear_algebra.py:125-126 | `m + (-other)`: for a Matrix, entry `(i, j)` is `m[i][j] + (-other[i][j])` over the zipped shape; for a number `x`, `m + Value(-x)` |
| OriginalBackend.MatrixSubVector | lib/original_backend/linear_algebra.py:125-126 | for a Vector, `-v` is added to every row, entry `j` of `-v` to column `j`, each row cut to the shorter length |
| OriginalBackend.MatrixSubEntry | lib/original_backend/linear_algebra.py:125-126 | for a single entry `x`, `-x` (made a `Value` when it is a number) is added to every entry, same shape |
| OriginalBackend.MatrixSubExact | lib/original_backend/linear_algebra.py:125-126 | read as numbers, entry `(i, j)` is `m[i][j]` minus the paired Matrix entry, minus entry `j` of a Vector, or minus the single entry |
| OriginalBackend.Negated | lib/original_backend/linear_algebra.py:133-137 | every entry negated |
| OriginalBackend.Inverted | lib/original_backend/linear_algebra.py:152 | every entry to the power -1 |
| OriginalBackend.Filled | lib/original_backend/linear_algebra.py:131 | `[[x] * d2] * d1`: `d1` rows of `d2` copies of `Value(x)` |
| OriginalBackend.MatrixRSub | lib/original_backend/linear_algebra.py:128-131 | `x - m`: a constant matrix of `dims()` plus `-m`, row `i` cut to the shorter of the first row and row `i` |
| OriginalBackend.MatrixMul | lib/original_backend/linear_algebra.py:145-149 | rows and entries paired by `zip` |
| OriginalBackend.MatrixTrueDiv | lib/original_backend/linear_algebra.py:151-152 | `m * other ** -1` |
| OriginalBackend.MatrixRTrueDiv | lib/original_backend/linear_algebra.py:154-156 | a constant matrix of `dims()` divided by `m` |
| OriginalBackend.MatrixRow | lib/original_backend/linear_algebra.py:195-196 | the row at a Python index (a Value key via `int(key.data)`); IndexError outside the rows or for an empty row |
| OriginalBackend.Select | lib/original_backend/linear_algebra.py:199 | the rows at the keys in key order; the first bad key raises IndexError |
| OriginalBackend.MatrixRows | lib/original_backend/linear_algebra.py:198-199 | `rows(keys)` selects in key order; no keys, a bad key or an empty first selected row raise IndexError |
| OriginalBackend.RowsAgreeWithRow | lib/original_backend/linear_algebra.py:195-199 | row `t` of `rows(keys)` is `row(keys[t])` |
| OriginalBackend.MatrixCol | lib/original_backend/linear_algebra.py:201-205 | entry `key` of every row; a short row raises IndexError |
| OriginalBackend.MatrixRowSum | lib/original_backend/linear_algebra.py:207-211 | a Vector with one entry per row, that row's `sum` |
| OriginalBackend.Column | lib/original_backend/linear_algebra.py:217 | entry `k` of every row |
| OriginalBackend.ColSums | lib/original_backend/linear_algebra.py:213-218 | as long as the first row, entry `k` the sum of column `k`; IndexError exactly when some row is shorter than the first |
| OriginalBackend.ColSumIsSumOfCol | lib/original_backend/linear_algebra.py:201-218 | entry `k` of `col_sum()` is the sum of `col(k)` |
| OriginalBackend.Broadcast | lib/original_backend/linear_algebra.py:220-228 | axis 0: `len(vector)` rows of one entry repeated `n` times; axis 1: `n` copies of the vector; other axes or `n <= 0` raise IndexError |
| OriginalBackend.BroadcastAxesTranspose | lib/original_backend/linear_algebra.py:220-228 | the two axes give each other's transpose |
| OriginalBackend.MatMul | lib/original_backend/linear_algebra.py:230-240 | inner dims must agree (AssertionError); a short row of `other` raises IndexError; otherwise `rows x other.cols` with entry the zipped sum |
| OriginalBackend.Matrix.Of | lib/original_backend/linear_algebra.py:74-77 | a matrix object over the given rows |
| OriginalBackend.Matrix.Max | lib/original_backend/linear_algebra.py:158-162 | every entry replaced in place by `Value.max(entry, num)`; the receiver is returned (rows not shared, see Left out) |
| OriginalBackend.Matrix.Min | lib/original_backend/linear_algebra.py:164-168 | every entry replaced in place by `Value.min(entry, num)`; the receiver is returned (rows not shared, see Left out) |
| OriginalBackend.Matrix.ReplaceEach | lib/original_backend/linear_algebra.py:159-161 | `row[i] = f(row[i])` for every row and index, shape kept |
| OriginalBackend.Matrix.ColSum | lib/original_backend/linear_algebra.py:213-218 | the accumulating loop gives exactly `ColSums` |
| Basics.ScalarAdd | basics/linear_algebra.py:17-19 | `Scalar + Scalar` holds the sum of the two values |
| Basics.ScalarMul | basics/linear_algebra.py:21-23 | `Scalar * Scalar` holds the product of the two values |
| Basics.VectorAdd | basics/linear_algebra.py:36-39 | AssertionError exactly when the dims differ; otherwise the entrywise sum, of the same dim |
| Basics.Dotprod | basics/linear_algebra.py:44-47 | AssertionError exactly when the dims differ; otherwise a `Scalar` |
| Basics.DotprodAddDistributes | basics/linear_algebra.py:17-19 | the dot product with a vector sum is the `Scalar` sum of the two dot products |
| Basics.DotprodSymmetric | basics/linear_algebra.py:44-47 | the dot product does not depend on operand order |
| Basics.DotprodOfSingles | basics/linear_algebra.py:21-23 | the dot product of one-entry vectors is the `Scalar` product |
| Basics.Dims | basics/linear_algebra.py:82-83 | IndexError exactly without a first row |
| Basics.EntrywiseRect | basics/linear_algebra.py:60-80 | rectangular matrices of equal dims combine entry by entry into a matrix of those dims |
| Basics.EntrywiseRow | basics/linear_algebra.py:65-68 | one row: IndexError exactly when either row is too short |
| Basics.Entrywise | basics/linear_algebra.py:60-80 | `__add__`/`__mul__` compute exactly the entrywise specification, errors included |
| Basics.ColumnOf | basics/linear_algebra.py:88-91 | one column: IndexError exactly when a row is too short |
| Basics.Transpose | basics/linear_algebra.py:85-92 | `t()` computes exactly the transpose specification |
| Basics.TransposeTwice | basics/linear_algebra.py:85-92 | for a rectangular matrix with at least one row and one column, `t()` swaps dims and indices, and `t().t()` gives the matrix back |
| Basics.TransposeWithoutColumns | basics/linear_algebra.py:85-92 | without columns the round trip fails: `t()` gives no rows, whose `t()` raises IndexError |
| Basics.EntryDot | basics/linear_algebra.py:101-104 | the innermost loop: IndexError exactly when a row is too short, else the accumulated sum |
| Basics.MatMulRow | basics/linear_algebra.py:99-105 | one row of the product, with its IndexError |
| Basics.MatMul | basics/linear_algebra.py:94-106 | `matmul` computes exactly the product specification, errors included |
| Basics.ColumnDotIsSum | basics/linear_algebra.py:101-103 | the accumulated `val` is the sum of products of the row and the column |
| Basics.MatMulIsDots | basics/linear_algebra.py:94-106 | for matching rectangular operands, entry `(q, c)` is `Vector.dotprod` of row `q` and row `c` of `b.t()` |
| Basics.TensorDimsLoop | basics/linear_algebra.py:139-145 | the loop computes `TensorDims`: the lengths met following the first element down; an empty list raises IndexError |
| Basics.ShapedDims | basics/linear_algebra.py:139-145 | the dims of a regular tensor are its shape |
| Basics.Collect | basics/linear_algebra.py:124 | a comprehension whose elements may raise gives all values, or the first error |
| Basics.InnerShaped | basics/linear_algebra.py:120-124 | `Inner` (`_inner_add`/`_inner_mul`) on regular tensors of one shape succeeds, keeps the shape and combines the numbers at every position |
| Basics.TensorOpShaped | basics/linear_algebra.py:119-137 | `TensorOp` (`__add__`/`__mul__`): different dims raise AssertionError; equal dims combine number by number |
| Basics.AsRowsShaped | basics/linear_algebra.py:150 | a regular block of dims `[m, n]` hands its numbers to `Matrix` |
| Basics.FromRowsShaped | basics/linear_algebra.py:150 | a product block back as a tensor of dims `[m, p]` |
| Basics.BlockMatMulShaped | basics/linear_algebra.py:148-152 | `BlockMatMul` (`inner_matmul`) on regular tensors with matching dims succeeds, and its result has dims `pre + [m, p]` (shape only; the values are stated by BlockMatMulEntry) |
| Basics.ColumnDotIsPathDot | basics/linear_algebra.py:101-103 | the `val` loop of `matmul`, on the rows of two regular blocks, sums `t1[i][z] * t2[z][c]` over `z < n` (`PathDot` at the empty path) |
| Basics.MatMulBlockEntries | basics/linear_algebra.py:150 | the innermost block: entry `(i, c)` of the product is the sum of `t1[i][z] * t2[z][c]` over `z < n` |
| Basics.BlockMatMulItem | basics/linear_algebra.py:152 | above the innermost block, element `j` of the result is `inner_matmul(t1[j], t2[j], d + 1)` |
| Basics.BlockMatMulEntry | basics/linear_algebra.py:148-152 | for every block path `q` into the leading dims, entry `(i, c)` of the result's block `q` is the sum over `z < n` of `t1[q][i][z] * t2[q][z][c]` |
| Basics.BlockMatMulEntries | basics/linear_algebra.py:148-152 | BlockMatMulEntry for all block paths and entries at once |
| Basics.TensorMatMulShaped | basics/linear_algebra.py:147-156 | `TensorMatMul` of regular tensors of dims `pre + [m, n]` and `pre + [n, p]` succeeds with dims `pre + [m, p]`, and entry `q + [i, c]` is the sum over `z < n` of `t1[q][i][z] * t2[q][z][c]` |
| Basics.TensorMatMulMismatch | basics/linear_algebra.py:154 | on regular tensors, leading dims (`dims()[:-2]`) that differ raise AssertionError |
| Basics.TensorMatMulInnerMismatch | basics/linear_algebra.py:155 | on regular tensors with equal leading dims, dims too short for `[-1]`/`[-2]` raise IndexError, and a last dim of `t1` that is not the one before last of `t2` raises AssertionError |
| Optimizers.Div | lib/optimizers.py:41 | Python float division: ZeroDivisionError exactly for divisor 0, else the quotient |
| Optimizers.FirstErr | lib/optimizers.py:39-41 | the position of the first step that raises, or the count |
| Optimizers.Descend | lib/optimizers.py:17-18 | `data -= step` for each tracked value in turn; the length is kept |
| Optimizers.DescendTotal | lib/optimizers.py:17-18 | each node loses the sum of the steps taken at it |
| Optimizers.DescendEffect | lib/optimizers.py:17-18 | untracked nodes keep their data; with distinct tracked values each loses exactly its own step |
| Optimizers.Renewed | lib/optimizers.py:39-41 | after a pass that stopped, the accumulators assigned so far are new and the rest are as before |
| Optimizers.RenewedGrows | lib/optimizers.py:40 | accumulators that only grow still have each grown after a stopped pass |
| Optimizers.Seeded | lib/optimizers.py:9-12 | tracked gradients 0, the loss's gradient 1, others unchanged |
| Optimizers.Prepare | lib/optimizers.py:8-13 | zero, seed, backward: raises exactly when backward does, otherwise the reference gradients from the seeded ones |
| Optimizers.SgdSteps | lib/optimizers.py:18 | step `k` is `lr * grad` of tracked value `k` |
| Optimizers.Sgd.constructor | lib/optimizers.py:4-6 | the tracked list is every parameter's `all_values()`, flattened in order |
| Optimizers.Sgd.UpdateGrads | lib/optimizers.py:16-18 | `data -= lr * grad` for every tracked value; gradients unchanged |
| Optimizers.Sgd.Step | lib/optimizers.py:8-14 | raises exactly when backward does, then with no data changed; otherwise the update on the gradients backward left |
| Optimizers.MomentumAccums | lib/optimizers.py:29 | the new accumulator is `b * acc + (1 - b) * grad` |
| Optimizers.MomentumSteps | lib/optimizers.py:30 | step `k` is `lr * acc_k` |
| Optimizers.MomentumAverages | lib/optimizers.py:29 | with a coefficient in [0, 1] the accumulator lies between its old value and the gradient |
| Optimizers.Momentum.constructor | lib/optimizers.py:22-25 | one zero accumulator per tracked value |
| Optimizers.Momentum.UpdateGrads | lib/optimizers.py:27-30 | the accumulators are renewed, then each tracked value descends by `lr * acc` |
| Optimizers.Momentum.Step | lib/optimizers.py:8-14 | when backward raises, neither data nor accumulators change |
| Optimizers.AdaGradAccums | lib/optimizers.py:40 | the accumulator grows by `grad ** 2` |
| Optimizers.RmsPropAccums | lib/optimizers.py:47 | the accumulator is `b * acc + (1 - b) * grad ** 2` |
| Optimizers.ScaledStep | lib/optimizers.py:41 | `lr * grad / (acc + EPSILON) ** 0.5`, raising exactly when the root is 0 |
| Optimizers.ScaledSteps | lib/optimizers.py:39-41 | the scaled step of each tracked value |
| Optimizers.AdaGradAccumsGrow | lib/optimizers.py:40 | the AdaGrad accumulator never decreases |
| Optimizers.RmsPropAccumsNonNegative | lib/optimizers.py:47 | with a coefficient in [0, 1] a non-negative RMSProp accumulator stays so |
| Optimizers.Pass | lib/optimizers.py:39-41 | the update loop stops at the first raising step, keeping the updates before it |
| Optimizers.AdaGrad.constructor | lib/optimizers.py:34-36 | one zero accumulator per tracked value |
| Optimizers.AdaGrad.UpdateGrads | lib/optimizers.py:38-41 | accumulators grow, and each tracked value descends by its scaled step until one raises |
| Optimizers.AdaGrad.Step | lib/optimizers.py:8-14 | accumulators never decrease; when backward raises nothing changes |
| Optimizers.RmsProp.constructor | lib/optimizers.py:22-25 | the momentum constructor: a coefficient and zeroed accumulators |
| Optimizers.RmsProp.UpdateGrads | lib/optimizers.py:45-48 | moving average of `grad ** 2`, then the scaled step, until one raises |
| Optimizers.RmsProp.Step | lib/optimizers.py:8-14 | when backward raises nothing changes |
| Optimizers.AdamStep | lib/optimizers.py:64-66 | the bias-corrected step; a correction factor of 0 raises ZeroDivisionError |
| Optimizers.AdamSteps | lib/optimizers.py:61-66 | Adam's step for each tracked value |
| Optimizers.AdamFirstStepUnbiased | lib/optimizers.py:54-65 | on the first step from zero accumulators, `m_norm` is the gradient when `b1` is not 1, and `v_norm` its square when `b2` is not 1 |
| Optimizers.Adam.constructor | lib/optimizers.py:52-58 | two zeroed accumulators per tracked value, `time` 1 |
| Optimizers.Adam.UpdateGrads | lib/optimizers.py:60-67 | both moving averages, the corrected step per value, and `time` up by one only after every value is updated |
| Optimizers.Adam.Step | lib/optimizers.py:8-14 | `time` goes up by exactly one per step that completes; when backward raises nothing changes |
| Losses.Power | lib/metrics/losses.py:2 | `m ** p`: same shape, each entry raised |
| Losses.Logs | lib/metrics/losses.py:6 | `m.ln()`: same shape, each entry's log |
| Losses.SquaredErrors | lib/metrics/losses.py:2 | `(actual - predicted) ** 2` over the zipped shape: entry `(i, j)` is entry `(i, j)` of the difference squared |
| Losses.SquaredErrorsExact | lib/metrics/losses.py:2 | read as numbers, entry `(i, j)` is `(a[i][j] - p[i][j])²` |
| Losses.MeanSquaredError | lib/metrics/losses.py:1-2 | IndexError exactly for a ragged difference; otherwise the column-0 sum over the row count of `actual` |
| Losses.NegativeLogLikelihoodExact | lib/metrics/losses.py:5-6 | read as numbers, for an `actual` with rows: minus the sum over every row `i` and zipped column `j` of `a[i][j] * ln(p[i][j])`, over the row count of `actual` |
| Losses.CrossEntropyTerms | lib/metrics/losses.py:10 | entry `(i, j)` is the sum of entry `(i, j)` of `actual * ln(predicted)` and of `(1 - actual) * ln(1 - predicted)`, with no more rows than either operand |
| Losses.CrossEntropyTermsExact | lib/metrics/losses.py:10 | read as numbers, entry `(i, j)` is `a * ln(p) + (1 - a) * ln(1 - p)` of the paired entries |
| Losses.BinaryCrossEntropy | lib/metrics/losses.py:9-10 | IndexError exactly for ragged terms; otherwise minus the column-0 sum over the row count of `actual` |
| Losses.SquaredErrorsColumnZero | lib/metrics/losses.py:2 | column 0 of the squared errors depends only on column 0 of the operands and their row counts |
| Losses.MeanSquaredErrorReadsColumnZero | lib/metrics/losses.py:1-2 | the mean squared error reads column 0 only |
| Losses.CrossEntropyTermsColumnZero | lib/metrics/losses.py:10 | column 0 of the terms depends only on column 0 of the operands |
| Losses.BinaryCrossEntropyReadsColumnZero | lib/metrics/losses.py:9-10 | the binary cross-entropy reads column 0 only |
| DataLoaders.RowsOfBoth | lib/gd_data_loaders.py:29 | `X` and `y` are sliced with the same index list; IndexError from either |
| DataLoaders.BatchLoader.constructor | lib/gd_data_loaders.py:5-7 | holds `X` and `y` |
| DataLoaders.BatchLoader.GetBatch | lib/gd_data_loaders.py:14-15 | every batch is the whole of `X` and `y` |
| DataLoaders.StochasticLoader.constructor | lib/gd_data_loaders.py:19-21 | the step starts at 0 |
| DataLoaders.StochasticLoader.GetBatch | lib/gd_data_loaders.py:23-29 | returns row `current_step` of both, then the step moves to the next row, from the last back to 0 |
| DataLoaders.NextStep | lib/gd_data_loaders.py:25-28 | the next step is `(s + 1) mod n` |
| DataLoaders.StochasticCycle | lib/gd_data_loaders.py:23-29 | from 0 the batches read rows `0, 1, ..., n-1`, then 0 again |
| DataLoaders.MiniBatchLoader.constructor | lib/gd_data_loaders.py:33-41 | the step starts at 0 and `indexes` is the first permutation |
| DataLoaders.MiniBatchLoader.NextIndexes | lib/gd_data_loaders.py:43-53 | `indexes` stays a permutation; the batch has `batch_size` valid indices when `batch_size <= n`; reaching `n` exactly wraps to step 0 with a new permutation |
| DataLoaders.MiniBatchLoader.GetBatch | lib/gd_data_loaders.py:43-55 | the rows of `X` and `y` at the same batch of indices |
| Processing.SharedColumns | lib/processing.py:12 | the number of columns every row has, so `col(k)` succeeds exactly below it |
| Processing.ColumnFault | lib/processing.py:18-21 | `transform` of a column fails exactly for a short row, a missing mean or std, or a zero std |
| Processing.StandardizedColumn | lib/processing.py:21 | every entry `(x - mean) / std` |
| Processing.SumStandardized | lib/processing.py:21 | the sum of a standardised column is `(sum - n * mean) / std` |
| Processing.StandardizedMeanIsZero | lib/processing.py:21 | standardising by a column's own mean gives mean 0 |
| Processing.AppendStandardized | lib/processing.py:18-21 | one column's inner loop appends fresh leaves holding the standardised entries, growing rows as needed |
| Processing.ColumnStats | lib/processing.py:12-13 | IndexError exactly for a too-short row; otherwise nodes holding the column's mean and `var ** 0.5` |
| Processing.FittedStep | lib/processing.py:11-13 | one more pass of `fit` records one more column's mean and std |
| Processing.ColumnNormalizer.constructor | lib/processing.py:6-8 | no means or stds |
| Processing.ColumnNormalizer.Fit | lib/processing.py:10-13 | appends one mean and one std per column, keeping earlier ones across calls; IndexError without rows or at a short row |
| Processing.ColumnNormalizer.Transform | lib/processing.py:15-22 | same shape as the input, entry `[i][c]` a fresh leaf holding `(m[i][c] - means[c]) / stds[c]`; errors of the first faulty column |
| Processing.FitTransformCentres | lib/processing.py:10-22 | `fit` then `transform` of one matrix gives columns of mean 0 |
| Processing.IndexOfDistinct | lib/np_backend/processing.py:45-46 | in a list without repeats `index` gives the position |
| Processing.LearnedDistinct | lib/np_backend/processing.py:40-43 | `fit` keeps the categories free of repeats |
| Processing.Learn | lib/np_backend/processing.py:9-12 | the old categories, then each new value once, in first-occurrence order |
| Processing.OneHotEncoder.constructor | lib/np_backend/processing.py:6-7 | no categories |
| Processing.OneHotEncoder.Fit | lib/pt_backend/processing.py:8-11 | appends unseen values in first-occurrence order, across calls |
| Processing.OneHotEncoder.Transform | lib/np_backend/processing.py:14-19 | one row per value of length `len(categories)`, 1 exactly at its category; an unseen value gives zeros |
| Processing.LabelEncoder.constructor | lib/pt_backend/processing.py:36-37 | no categories |
| Processing.LabelEncoder.Fit | lib/np_backend/processing.py:40-43 | appends unseen values in first-occurrence order, across calls |
| Processing.LabelEncoder.Transform | lib/pt_backend/processing.py:44-45 | ValueError exactly when some value was never seen; otherwise each value's category index, which maps back to the value |
| Tokenization.JoinHas | lib/tokenization.py:18 | every character of every document is in the joined text |
| Tokenization.Insert | lib/tokenization.py:19 | inserting keeps a sorted list without repeats |
| Tokenization.SortedChars | lib/tokenization.py:19 | `sorted(set(text))` is strictly increasing |
| Tokenization.SortedCharsHas | lib/tokenization.py:19 | `sorted(set(text))` lists exactly the text's characters |
| Tokenization.BaseVocabShape | lib/tokenization.py:19 | the separator, then one entry per distinct character in increasing order |
| Tokenization.BaseHasChars | lib/tokenization.py:19 | every character has its one-character entry |
| Tokenization.BaseVocabFacts | lib/tokenization.py:18-19 | the initial vocabulary starts with the separator, has no empty entry and covers the text |
| Tokenization.CharIds | lib/tokenization.py:20 | `vocab.index(c)` names the one-character entry of each character (never 0, the separator) |
| Tokenization.SpellChars | lib/tokenization.py:33 | ids whose entries are single characters spell those characters |
| Tokenization.CountPositive | lib/tokenization.py:30-31 | a pair that occurs has a positive count |
| Tokenization.MostCommonUnique | lib/tokenization.py:32 | the most common pair, first-seen on ties, is unique |
| Tokenization.MostCommonPair | lib/tokenization.py:29-32 | IndexError exactly with fewer than two tokens; otherwise the most common adjacent pair, ties to the first seen |
| Tokenization.MergeDropsLastToken | lib/tokenization.py:35-44 | as written: the merge loop drops a final token not consumed by a merge (see Findings) |
| Tokenization.MergedKeepsText | lib/tokenization.py:35-44 | corrected: merging keeps the ids the tokens spell, and no token is empty |
| Tokenization.MergePassAsWritten | lib/tokenization.py:35-44 | as written: the merge loop computes `MergedAsWritten`, which stops before the last token |
| Tokenization.AsWrittenDropsAtMostLast | lib/tokenization.py:35-44 | the pass as written is a prefix of the corrected pass and at most one token shorter; the token it loses is the last of the text |
| Tokenization.MergePass | lib/tokenization.py:35-44 | corrected (see Findings): the merge loop computes `Merged`, replacing matching pairs left to right without overlap and keeping the last token |
| Tokenization.PairIsSlice | lib/tokenization.py:31-33 | the merged pair spells a stretch of at least two ids of the text |
| Tokenization.FlattenSingles | lib/tokenization.py:20 | the initial one-element tokens spell the character ids |
| Tokenization.TrainingStart | lib/tokenization.py:19-20 | the training invariant holds before the first merge |
| Tokenization.TrainingStep | lib/tokenization.py:29-44 | with the corrected merge: each round appends one entry, spelling a stretch of at least two characters of the text, and the merged tokens still spell the text |
| Tokenization.FirstTokensRound | lib/tokenization.py:18-20 | the tokens `fit` starts from are one per character of the text, each the id of that character's entry |
| Tokenization.MergeRoundsGrow | lib/tokenization.py:28-44 | one more round keeps every recorded round and records the new one: its entry spells the most common pair, and the next tokens are that pair merged |
| Tokenization.MergeLoop | lib/tokenization.py:28-49 | the `while` loop of `fit`, with the corrected merge: the vocabulary grows to `max_vocab` unless fewer than two tokens are left (IndexError); round `k` adds the spelling of the most common pair of round `k`'s tokens, and round `k + 1` is round `k` with that pair merged |
| Tokenization.FitKeepsChars | lib/tokenization.py:17-20 | after `fit` every document character has its entry |
| Tokenization.BpeTokenizer.constructor | lib/tokenization.py:8-11 | no vocabulary yet |
| Tokenization.BpeTokenizer.Fit | lib/tokenization.py:17-49 | the vocabulary starts with the base vocabulary and grows to `max_vocab` entries (or stays at the base size when that is already larger); IndexError only when fewer than `max_vocab` entries are reached, and always when the text has under two characters; each added entry is a stretch of at least two characters of the text; entry `k` after the base vocabulary spells the most common pair of round `k`'s tokens, and round `k + 1` is round `k` with that pair merged (corrected merge, see Left out); every document character has an entry |
| Tokenization.Chars | lib/tokenization.py:55 | `list(text)` |
| Tokenization.RenderedAppend | lib/tokenization.py:62-74 | the text a piece list stands for splits over concatenation |
| Tokenization.RenderedChars | lib/tokenization.py:55 | the characters stand for the text |
| Tokenization.Joined | lib/tokenization.py:67-68 | `"".join(candidate)` exactly when every element is a string |
| Tokenization.CandidateMatches | lib/tokenization.py:66-68 | the test on the candidate slice holds exactly when the pieces there start with the entry's characters |
| Tokenization.ReplaceStep | lib/tokenization.py:66-73 | `Replace`, one encoding pass: at each position either the entry matches and becomes one id, or the piece is kept |
| Tokenization.ReplaceFacts | lib/tokenization.py:62-74 | a pass keeps the text, keeps ids in range, and removes a one-character entry's character |
| Tokenization.EncodePass | lib/tokenization.py:63-74 | the inner loop computes exactly the pass |
| Tokenization.EncodeEntries | lib/tokenization.py:57-74 | the passes after the separator's, one per entry from `len(vocab) - 1` down to 1 in that order: the result is `Passes`, it keeps the text, and no one-character entry's character is left |
| Tokenization.EncodeStep | lib/tokenization.py:62-74 | one more pass, for the next entry down, keeps the loop invariant of EncodeEntries |
| Tokenization.Leftovers | lib/tokenization.py:57-74 | a character left unencoded has no one-character entry; so when every character has one, nothing is left |
| Tokenization.BpeTokenizer.Encode | lib/tokenization.py:54-75 | before `fit`, TypeError; after it, the result is the separator's pass over the characters, then one pass per entry from the last down to entry 1 (`Passes`); it stands for the text, with ids in range; when every character has an entry, decoding gives the text back, otherwise decoding raises TypeError |
| Tokenization.Lookup | lib/tokenization.py:52 | `vocab[idx]`: a string raises TypeError, an id outside the vocabulary IndexError |
| Tokenization.DecodeWith | lib/tokenization.py:52 | succeeds exactly when every element can be looked up |
| Tokenization.DecodeRendered | lib/tokenization.py:52 | decoding ids in range gives the text they stand for; a leftover character raises TypeError |
| Tokenization.BpeTokenizer.Decode | lib/tokenization.py:51-52 | an empty list decodes to ""; otherwise, without a vocabulary, TypeError; with one, it succeeds exactly when every element is an id that is a valid Python index into the vocabulary |

## Left out

- `__str__`, `__repr__`, `print`-based logging (`BPETokenizer._log_step`), the `time` calls and `basics/print_utils.py`. They only produce output.
- Floating point: numbers are reals.
  - `exp`, `ln`, square roots and non-integer powers are uninterpreted functions.
  - Rounding, infinities and NaN are not modelled.
  - `float(data)` in `lib/fast/value.py` is the identity on reals.
- `uuid4()` and `id()`: identity is the node's index in the arena.
- The lazy `__getattr__` defaults are the initial gradient 0 and the leaf rule, set when a node is made.
- `__lt__`/`__gt__` are not modelled: nothing in the core calls them.
- The numpy-compatibility hooks of `lib/fast/value.py` are not modelled: `__float__`, `__array_struct__`, `conjugate`.
- `Value.max`/`Value.min` with a threshold that is not a number (the source then reads an unbound `out`): the model's threshold is always a number.
- `_backward` in the model uses the corrected positional dispatcher (see Findings). The source's identity-based dispatcher and the positional one agree wherever the source does not raise (`Calculus.PositionalAgrees`).
- lib/original_backend/value.py is not part of this model. The `Value` of `lib/original_backend/linear_algebra.py` is abstract: its operations come from an `Ops` record and are left uninterpreted.
- `Tensor3D` only stores matrices, and its `dims` depends on the unmodelled `Value`.
- `__getitem__`, `__iter__` and `__next__` delegate to the list.
- lib/np_backend/, lib/pt_backend/ containers, networks and optimizers, and `lib/nn.py`: they wrap numpy or torch. `ColumnNormalizer` of those two backends is left out for the same reason.
- lib/io.py: file I/O.
- `random.sample` in `MiniBatchDataLoader._regenerate_indexes`: the permutation is a parameter, any permutation of `0..n-1`.
- The tokenizer works on `str` characters. `Counter` is modelled by the most-common-pair predicate (the first-seen tie-break of `most_common`), not as a dictionary.
- Optimizers.Sgd.Step: the update is stated for the gradients backward leaves. Convergence and "the loss decreases" are not claimed.
- Processing.FitTransformCentres: the standardised columns are proved to have mean 0. That they have variance 1 is not proved, because the square root is uninterpreted.
- Processing.OneHotEncoder.Transform: the rows are lists of integers, not the backend `Matrix` they are wrapped in, because that `Matrix` is numpy or torch.
- Processing.LabelEncoder.Transform: the labels are a list, not the backend `Vector`/`Matrix` they are wrapped in, for the same reason.
- Basics.TensorMatMulShaped: `TensorMatMul` reports every malformed matrix-level block as TypeError. Python may raise another error there, or none (`Matrix` accepts any list).
- The `isinstance` assertions of basics/linear_algebra.py are met by the Dafny types, so their failure is not modelled.
- Tokenization.BpeTokenizer.Fit: merges with the corrected pass, which keeps a final token that no pair consumed. The source drops that token, so its vocabulary and its IndexError can differ. On the text "abc" the source merges "ab", loses "c", and raises IndexError on the next round with vocabulary `[SEP, a, b, c, "ab"]`; the model keeps `c` and goes on to add "abc". `Tokenization.MergePassAsWritten` and `Tokenization.AsWrittenDropsAtMostLast` state the source's pass and how it differs.
- Tokenization.MergePass: the corrected merge, for the same reason; the pass as written is `Tokenization.MergePassAsWritten`.
- Tokenization.MergeLoop: runs the corrected merge, for the same reason.
- Tokenization.TrainingStep: states the round with the corrected merge, for the same reason.
- OriginalBackend.Matrix.Max: rows are values. In the source, rows can be shared lists: `values.copy()` is shallow, `rows(keys)` returns the selected row lists themselves, and `broadcast` on axis 1 repeats `vector.values` itself. `max` then updates every holder of a shared row. `Matrix.broadcast(v, 2, 1).max(c)` applies `Value.max` twice per entry and rewrites `v.values`, and `m.rows([0]).max(c)` rewrites row 0 of `m`. The model updates only the receiver, once per entry.
- OriginalBackend.Matrix.Min: the same lost sharing as `max`.
- OriginalBackend.NewMatrix, OriginalBackend.MatrixRows, OriginalBackend.Broadcast: build rows as values, not the shared row lists of the source, so an update in place through one holder is not seen through the others.
- Scenarios.Reset: a reference reset that zeroes every descendant of the loss. `step` zeroes only the tracked values, so an untracked intermediate keeps the gradient of an earlier pass. Stepping twice without a new forward pass then adds the second pass to what the first left at every untracked intermediate node, and passes the doubled gradient on to the tracked values below it. `Scenarios.ResetForgetsHistory` and `Scenarios.ResetIdempotent` hold for the reference reset only; `Scenarios.SeededMeetsReset` gives the condition under which `step` agrees with it.
- `MiniBatchDataLoader`'s default `batch_size=16`: the model's constructor always takes the batch size.
- The depth of the recursion in `_get_all_descendats` is bounded by Python's recursion limit, so a deep enough graph raises RecursionError in the source. `ValueEngine.CollectDescendants` has no depth bound.
- Losses: the losses are composed from the containers of lib/original_backend/linear_algebra.py, whose entries are abstract. Their numeric values are stated in terms of the entry operations.

## Findings

| source | as written | input that shows it | evidently intended | confidence | as-written member | corrected member |
|---|---|---|---|---|---|---|
| lib/calculus.py:23-24 | `_other_var` filters `in_vars` by identity, so when both operands of a product are the same node the list is empty and `[0]` raises IndexError in `backward()` | `x = Value(3); y = x * x; y.grad = 1; y.backward()` | the partial of `x * x` is `x.data` for each occurrence, so `x.grad` is `2 * x.data` | not executed | Calculus.MulSelfRaises | Calculus.SquarePartialAt |
| lib/tokenization.py:35-44 | the merge loop runs while `idx < len - 1` and never appends a final token that was not consumed by a merge, so each merge can drop the last token of the training text | tokens `[(1,), (2,), (3,)]` merged on `(1, 2)` give `[(1, 2)]`, losing `(3,)` | the merged tokens spell the same ids as before | not executed | Tokenization.MergeDropsLastToken | Tokenization.MergedKeepsText |
