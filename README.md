# sui_torch: a reverse-mode autodiff engine, modelled in Dafny

`projekt2/sui_torch.py` defines a differentiable `Tensor`. It has a value, a
gradient that starts at zeros, and a `back_op` that records the operation
that produced it and the operand tensors. Six forward constructors build new
tensors: `sui_sum`, `add`, `subtract`, `multiply`, `relu` and `dot_product`.
`Tensor.backward` walks the graph from a tensor towards the leaves. It
applies each operation's local derivative rule and recurses depth first into
the operands.

The model has five modules:

- `NdArrays` (`ndarrays.dfy`) is the slice of the array library that the
  engine uses. It covers integer arrays stored flat in row-major order,
  `zeros_like` and `ones_like`, element-wise `+ - *`, multiplying by `-1`,
  `np.maximum(x, 0)` and `np.where(x > 0, 1, 0)`, `np.sum`, `.T` and the 2-D
  `np.dot`.
- `Tensors` (`tensors.dfy`) holds the tensors of one computation in an arena
  (a sequence indexed by position). `back_op` becomes an `Origin` that names
  its operands by position. Because every constructor refers only to tensors
  that already exist, operands sit at smaller positions and the graph is
  acyclic (`WellFormed`). `Computed` says that every value is what its
  operation computes from its operands.
- `Backprop` (`backprop.dfy`) states what `backward` does as a specification
  function, `Trace`: the ordered list of `grad := deltas` assignments the
  traversal makes. It also holds the imperative engine, the class `Graph`.
  Its field `nodes` is the arena and its field `grads` holds one mutable
  gradient per tensor. `Graph.Backward` and `Graph.BackwardFromScalar`
  perform the steps of `sui_torch.py`: the overwrite, the caller-side `+=`,
  and the recursion in the same order. They are proved to leave
  `grads == Apply(old(grads), Trace(...))`.
- `BackwardProperties` (`properties.dfy`) proves what each rule leaves in the
  operands' gradients. This includes the effect of the overwrite at line 29
  under fan-out, and what the seedless path leaves in small graphs.
- `Adjoints` (`adjoints.dfy`) proves that each local rule is the exact
  derivative of its operation. For a perturbation `h` of one operand,
  `Inner(d, f(a + h) - f(a)) == Inner(rule(d), h)`.

A textbook reverse-mode engine accumulates (`grad += deltas`), so that after
`add(a, a)` a backward pass would give `a` a gradient of 2. `sui_torch.py`
instead overwrites a tensor's gradient on entry to `backward(deltas)` (line
29). The model follows the code: the `+=` each caller makes before recursing
is always superseded. The fan-out lemmas below state the consequence for a
leaf `a`: it keeps a single contribution. Gradients are values in this model,
whereas numpy arrays are shared by reference (see "Left out"). For a leaf
operand of `add` in a graph no earlier pass has touched, the two agree,
because the leaf's zero gradient and the array `add` passes on are both
fresh arrays.

## Model

| member | source | states |
|---|---|---|
| Tensors.Shape | projekt2/sui_torch.py:19-21 | the shape is the value's shape; its element count is the number of stored elements |
| Tensors.InitialGrad | projekt2/sui_torch.py:10 | a new tensor's gradient has the value's shape and every element 0 |
| Backprop.Graph.Push | projekt2/sui_torch.py:8-11 | `Tensor.__init__`: the tensor is appended with its value and back_op unchanged and a zero gradient of its shape; no existing tensor or gradient changes |
| Tensors.SuiSum | projekt2/sui_torch.py:105-107 | the result is rank 0 and holds the total of all source elements; its origin is the sum of the source; a well-formed, computed arena stays so |
| Tensors.Add | projekt2/sui_torch.py:109-111 | element i of the result is the sum of the operands' elements i; same shape; the arena stays well formed and computed |
| Tensors.Subtract | projekt2/sui_torch.py:113-115 | element i is the left element minus the right one; same shape; the arena stays well formed and computed |
| Tensors.Multiply | projekt2/sui_torch.py:117-119 | element i is the product of the operands' elements i; same shape; the arena stays well formed and computed |
| Tensors.Relu | projekt2/sui_torch.py:122-124 | every element is at least 0 and at least the source element, and equals one of the two |
| Tensors.DotProduct | projekt2/sui_torch.py:127-129 | the result is Rows(a) x Cols(b) and entry (i, j) is row i of a times column j of b |
| Backprop.OperandGrads | projekt2/sui_torch.py:32-81 | the local rules target only the tensor's operands and earlier tensors, each with that operand's shape; every operand of a non-leaf, non-sum tensor receives one |
| Backprop.OperandGradsInOrder | projekt2/sui_torch.py:41-44 | the i-th local rule targets the i-th operand of `back_op`, so the recursion follows `back_op[1]`, then `back_op[2]` |
| Backprop.Trace | projekt2/sui_torch.py:25-81 | the traversal's first assignment gives the tensor its own deltas; every later one targets an earlier tensor with a gradient of its shape |
| Backprop.ApplyConcat | projekt2/sui_torch.py:43-44 | running two traversals one after the other is the traversal of their concatenation |
| Backprop.ApplyUntouched | projekt2/sui_torch.py:25-81 | a gradient that no assignment targets keeps its value |
| Backprop.ApplyOverwritten | projekt2/sui_torch.py:29 | whatever a gradient held is lost once an assignment targets it |
| Backprop.ApplyFits | projekt2/sui_torch.py:27-29 | assignments of the right shapes keep every gradient in the shape of its tensor's value |
| Backprop.NoOperandTrace | projekt2/sui_torch.py:29-32 | with no operand to recurse into, `backward(d)` only sets the tensor's own gradient to d |
| Backprop.SeededTrace | projekt2/sui_torch.py:92-95 | assigning the source's gradient before calling its `backward` with the same array has no effect of its own |
| Backprop.TwoOperandSteps | projekt2/sui_torch.py:41-44 | the two `+=` into the operands, followed by the two recursive calls, leave what the two calls alone leave |
| Backprop.OwnGradIsDeltas | projekt2/sui_torch.py:29 | however the traversal runs, the starting tensor ends with exactly its deltas (with gradients as values; see "Left out") |
| Backprop.OperandAncestors | projekt2/sui_torch.py:43-44 | an operand lies at a smaller position, and the tensors it was computed from are among those of its result |
| Backprop.TraceWithinAncestors | projekt2/sui_torch.py:25-81 | `backward` assigns only the gradients of tensors the starting one was computed from |
| Backprop.OutsideAncestorsUnchanged | projekt2/sui_torch.py:25-81 | the gradient of any tensor the starting one was not computed from keeps its value |
| Backprop.Graph.Backward | projekt2/sui_torch.py:25-81 | `backward(deltas)` succeeds exactly when the deltas have the tensor's shape; a failure changes nothing; success leaves the specified traversal's effect, gives the tensor exactly its deltas (with gradients as values), leaves gradients outside its ancestors alone, and for a leaf or a sum changes only its own gradient |
| Backprop.Graph.LocalGrads | projekt2/sui_torch.py:33-81 | the gradients the arm for t's tag computes for its operands are exactly the local rules `OperandGrads` |
| Backprop.Graph.PropagateToSource | projekt2/sui_torch.py:71-72 | the `+=` into the source of a `relu` followed by the recursive call leave exactly the source's specified traversal |
| Backprop.Graph.PropagateToOperands | projekt2/sui_torch.py:33-81 | after the tensor's own assignment, the `+=` and recursive call for each operand leave the rest of the specified traversal's effect |
| Backprop.Graph.PropagateToBoth | projekt2/sui_torch.py:40-81 | a two-operand arm's `+=` pair and its two recursive calls, in the order of `sui_torch.py`, leave the effect of both operands' traversals |
| Backprop.Graph.BackwardFromScalar | projekt2/sui_torch.py:82-97 | `backward()` fails for a shape that is neither rank 0 nor one element, then for a leaf, then for any origin but a sum; each failure changes nothing; a sum gives its source all ones and then traverses from the source if it is not a leaf; the sum's own gradient is unchanged |
| BackwardProperties.LastOperandGrad | projekt2/sui_torch.py:41-44 | the operand recursed into last ends with exactly the gradient its rule passes it (with gradients as values) |
| BackwardProperties.FirstOperandGrad | projekt2/sui_torch.py:41-44 | the operand recursed into first keeps its rule's gradient when the other operand's traversal cannot reach it |
| BackwardProperties.AddPassesDeltas | projekt2/sui_torch.py:34-44 | `add` passes each operand the deltas themselves |
| BackwardProperties.AddToItselfKeepsOneContribution | projekt2/sui_torch.py:29-44 | for `add(a, a)` with a leaf a and nonzero deltas, a ends with the deltas and not with twice the deltas |
| BackwardProperties.SubtractPassesNegation | projekt2/sui_torch.py:46-54 | `subtract` passes the left operand the deltas and the right one their negation |
| BackwardProperties.MultiplySwapsValues | projekt2/sui_torch.py:56-64 | `multiply` passes each operand the deltas times the other operand's value |
| BackwardProperties.ReluMasksDeltas | projekt2/sui_torch.py:66-72 | `relu` passes the source the deltas where its value is strictly positive and 0 elsewhere, 0 included |
| BackwardProperties.DotProductTransposes | projekt2/sui_torch.py:74-81 | `dot_product` passes the left operand the deltas times the transposed right value and the right operand the transposed left value times the deltas, entry by entry |
| BackwardProperties.StopsAtLeafOrSum | projekt2/sui_torch.py:31-33 | `backward(d)` on a leaf or on a sum sets its own gradient to d and changes nothing else |
| BackwardProperties.SeedlessGivesOnes | projekt2/sui_torch.py:90-95 | the seedless path leaves a sum's source with a gradient of all ones |
| BackwardProperties.SeedlessSumOfDoubled | projekt2/sui_torch.py:89-95 | `backward()` from `sui_sum(add(a, a))` for a leaf a leaves a with all ones, not twos |
| BackwardProperties.SeedlessSumOfProduct | projekt2/sui_torch.py:89-95 | `backward()` from `sui_sum(multiply(a, b))` for two different leaves leaves a with b's value and b with a's |
| Adjoints.AddRuleIsDerivative | projekt2/sui_torch.py:38-44 | the gradient `add` passes each operand weights a perturbation of that operand exactly as the deltas weight the change it causes in the sum |
| Adjoints.SubtractRuleIsDerivative | projekt2/sui_torch.py:50-54 | the same for `subtract`, with the negated deltas for the right operand |
| Adjoints.MultiplyRuleIsDerivative | projekt2/sui_torch.py:60-64 | the same for `multiply`, where each operand's rule is the deltas times the other's value |
| Adjoints.ReluRuleIsDerivative | projekt2/sui_torch.py:69-72 | the same for `relu`, for perturbations that make no element change sign |
| Adjoints.SumSeedIsDerivative | projekt2/sui_torch.py:91-92 | the ones the seedless path assigns are the derivative of the sum: the total changes by the sum of the perturbation |
| Adjoints.DotLeftIdentity | projekt2/sui_torch.py:78 | for matrices, the deltas times the transposed right factor are the derivative of the product in its left factor |
| Adjoints.DotRightIdentity | projekt2/sui_torch.py:79 | the transposed left factor times the deltas are the derivative of the product in its right factor |
| Adjoints.DotProductRuleIsDerivative | projekt2/sui_torch.py:75-81 | both gradients `dot_product` passes are the derivative of the product in the operand they go to |

## Left out

- numpy broadcasting: operands of `add`, `subtract` and `multiply` must have one shape. `dot_product` is modelled only for two 2-D arrays, not the 1-D, scalar or N-D forms of `np.dot`.
- Floating point and dtypes: elements are unbounded integers, so the derivative identities hold exactly.
- `Tensor.__str__` (lines 13-17) is display only.
- Arrays are values here. In `sui_torch.py`, after line 29 or 92-95 a tensor's `grad` is the very array it was passed, and an in-place `+=` (lines 41-42, 51-52, 61-62, 71, 78-79) on one alias changes every other. This model does not capture that sharing. The statements about gradients after a traversal hold for this value semantics. The Python code agrees with them while no `+=` reaches an array that is also another tensor's gradient or some caller's deltas, as with the leaf operands the fan-out lemmas require.
- BackwardProperties.ReluMasksDeltas, BackwardProperties.SubtractPassesNegation, BackwardProperties.MultiplySwapsValues, BackwardProperties.DotProductTransposes, BackwardProperties.AddPassesDeltas, BackwardProperties.FirstOperandGrad and BackwardProperties.SeedlessGivesOnes: each holds only with gradients as values. Take `t = relu(s)` with `s = subtract(L, multiply(L, c))` and leaves `L = [-1]`, `c = [2]`. `t.backward(d)` passes `s` a fresh array `q` equal to `d`. Line 53 makes `L.grad` that same `q`, and line 61 then adds `-2d` into it in place. So `s` ends with `-d`, where `ReluMasksDeltas` states `d`.
- Backprop.OwnGradIsDeltas: holds only with gradients as values. For `t = subtract(L, relu(L))` with a leaf `L`, `t.backward(d)` makes `L.grad` the array `d` itself (line 29 in the call for `L`). Line 71 then adds the masked, negated deltas into `L.grad` in place, so `t` ends with `d * (1 - mask)` and not `d`.
- Backprop.Graph.Backward: its clause `grads[t] == deltas` holds only with gradients as values, for the same reason and on the same graph.
- BackwardProperties.LastOperandGrad: holds only with gradients as values. For `a = subtract(x, y)` and `t = add(a, a)`, `t.backward(d)` passes both calls into `a` one fresh array `p`. The first call leaves `x.grad` as `p` itself (lines 51 and 53). In the second call, line 51 doubles `p` in place, and `a.grad` is `p`, so `a` ends with twice the deltas instead of once.
- The `ValueError` raised when a two-operand or one-operand `back_op` lacks its operand (lines 36-37, 48-49, 58-59, 67-68, 76-77). An `Origin` always names its operands, so these branches cannot occur.
- A hand-built `back_op` with an unknown tag or an arbitrary shape is not representable. Only the six constructors' origins exist, and `WellFormed` fixes their shapes.
- Exceptions become `Outcome` values. The failed `assert` at line 27 is `Failed(ShapeMismatch)`. The errors at lines 84, 87 and 97 are `NotScalar`, `LeafStart` and `Unimplemented`. The exception classes and messages are not modelled.
- Python's recursion limit: the model's recursion terminates on any finite acyclic graph.
- Adjoints.ReluRuleIsDerivative: the identity is stated only for perturbations that keep every element's sign, because the mask is not the derivative where an element crosses 0.
