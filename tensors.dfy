/** Differentiable tensors and the six forward constructors.

    The tensors of one computation live in an arena, a sequence indexed by
    position; a tensor's `back_op` becomes an `Origin` that names its operands
    by their positions. Every constructor only ever refers to tensors that
    already exist, so an operand's position is smaller than its result's and
    the graph is acyclic. The mutable gradient of each tensor is kept beside
    the arena, in the grad store that backward updates (module Backprop). */
module Tensors {
  import opened NdArrays

  /** The operation that produced a tensor and its operands: `back_op` with its
      tag (`"sui_sum"`, `"add"`, ...); `Leaf` is `back_op = None`. */
  datatype Origin =
    | Leaf
    | SumOf(source: nat)
    | AddOf(left: nat, right: nat)
    | SubtractOf(left: nat, right: nat)
    | MultiplyOf(left: nat, right: nat)
    | ReluOf(source: nat)
    | DotProductOf(left: nat, right: nat)

  /** The value of a tensor and how it was produced; neither ever changes. */
  datatype Tensor = Tensor(value: Array, origin: Origin)

  /** `Tensor.shape`: the shape of the value. */
  function Shape(t: Tensor): (s: seq<nat>)
    ensures s == t.value.shape && Prod(s) == |t.value.data|
  {
    t.value.shape
  }

  /** The gradient a new tensor starts with: zeros of its value's shape. */
  function InitialGrad(t: Tensor): (z: Array)
    ensures z.shape == t.value.shape
    ensures forall i :: 0 <= i < |z.data| ==> z.data[i] == 0
  {
    Full(t.value.shape, 0)
  }

  /** The tensor at position k points only at earlier tensors, and its shape is
      the one its operation produces from its operands' shapes. */
  predicate WellFormedAt(g: seq<Tensor>, k: nat)
    requires k < |g|
  {
    var shape := g[k].value.shape;
    match g[k].origin
    case Leaf => true
    case SumOf(s) => s < k && shape == []
    case AddOf(l, r) => l < k && r < k && g[l].value.shape == shape && g[r].value.shape == shape
    case SubtractOf(l, r) => l < k && r < k && g[l].value.shape == shape && g[r].value.shape == shape
    case MultiplyOf(l, r) => l < k && r < k && g[l].value.shape == shape && g[r].value.shape == shape
    case ReluOf(s) => s < k && g[s].value.shape == shape
    case DotProductOf(l, r) =>
      l < k && r < k && IsMatrix(g[l].value) && IsMatrix(g[r].value) &&
      Cols(g[l].value) == Rows(g[r].value) &&
      shape == [Rows(g[l].value), Cols(g[r].value)]
  }

  /** An arena every tensor of which is well formed: an acyclic graph whose
      shapes fit together. */
  predicate WellFormed(g: seq<Tensor>)
  {
    forall k :: 0 <= k < |g| ==> WellFormedAt(g, k)
  }

  /** The value of the tensor at position k is what its operation computes
      from its operands' values; a leaf's value is whatever it was given. */
  predicate ComputedAt(g: seq<Tensor>, k: nat)
    requires k < |g| && WellFormedAt(g, k)
  {
    var v := g[k].value;
    match g[k].origin
    case Leaf => true
    case SumOf(s) => v == SumAll(g[s].value)
    case AddOf(l, r) => v == Plus(g[l].value, g[r].value)
    case SubtractOf(l, r) => v == Minus(g[l].value, g[r].value)
    case MultiplyOf(l, r) => v == Times(g[l].value, g[r].value)
    case ReluOf(s) => v == PositivePart(g[s].value)
    case DotProductOf(l, r) => v == Dot(g[l].value, g[r].value)
  }

  /** A well-formed arena whose every value was computed by its operation:
      one the six constructors built. */
  predicate Computed(g: seq<Tensor>)
  {
    WellFormed(g) && forall k :: 0 <= k < |g| ==> ComputedAt(g, k)
  }

  /** Appending a well-formed tensor to a well-formed arena keeps it well
      formed, and computed if the new value is. */
  lemma {:induction false} Extend(g: seq<Tensor>, t: Tensor)
    ensures WellFormed(g) && WellFormedAt(g + [t], |g|) ==> WellFormed(g + [t])
    ensures Computed(g) && WellFormedAt(g + [t], |g|) && ComputedAt(g + [t], |g|) ==> Computed(g + [t])
  {
    if WellFormed(g) && WellFormedAt(g + [t], |g|) {
      forall k | 0 <= k < |g| + 1
        ensures WellFormedAt(g + [t], k)
      {
        if k < |g| {
          assert WellFormedAt(g, k);
        }
      }
      if Computed(g) && ComputedAt(g + [t], |g|) {
        forall k | 0 <= k < |g| + 1
          ensures ComputedAt(g + [t], k)
        {
          if k < |g| {
            assert WellFormedAt(g, k) && ComputedAt(g, k);
          }
        }
      }
    }
  }

  /** `sui_sum`: the sum of all elements of the source, a rank-0 value. */
  function SuiSum(g: seq<Tensor>, source: nat): (t: Tensor)
    requires source < |g|
    ensures t.origin == SumOf(source)
    ensures t.value.shape == [] && t.value.data == [Total(g[source].value)]
    ensures WellFormed(g) ==> WellFormed(g + [t])
    ensures Computed(g) ==> Computed(g + [t])
  {
    var t := Tensor(SumAll(g[source].value), SumOf(source));
    Extend(g, t);
    t
  }

  /** `add`: the element-wise sum of two values of one shape. */
  function Add(g: seq<Tensor>, a: nat, b: nat): (t: Tensor)
    requires a < |g| && b < |g| && g[a].value.shape == g[b].value.shape
    ensures t.origin == AddOf(a, b) && t.value.shape == g[a].value.shape
    ensures forall i :: 0 <= i < |t.value.data| ==>
      t.value.data[i] == g[a].value.data[i] + g[b].value.data[i]
    ensures WellFormed(g) ==> WellFormed(g + [t])
    ensures Computed(g) ==> Computed(g + [t])
  {
    var t := Tensor(Plus(g[a].value, g[b].value), AddOf(a, b));
    Extend(g, t);
    t
  }

  /** `subtract`: the element-wise difference of two values of one shape. */
  function Subtract(g: seq<Tensor>, a: nat, b: nat): (t: Tensor)
    requires a < |g| && b < |g| && g[a].value.shape == g[b].value.shape
    ensures t.origin == SubtractOf(a, b) && t.value.shape == g[a].value.shape
    ensures forall i :: 0 <= i < |t.value.data| ==>
      t.value.data[i] == g[a].value.data[i] - g[b].value.data[i]
    ensures WellFormed(g) ==> WellFormed(g + [t])
    ensures Computed(g) ==> Computed(g + [t])
  {
    var t := Tensor(Minus(g[a].value, g[b].value), SubtractOf(a, b));
    Extend(g, t);
    t
  }

  /** `multiply`: the element-wise product of two values of one shape. */
  function Multiply(g: seq<Tensor>, a: nat, b: nat): (t: Tensor)
    requires a < |g| && b < |g| && g[a].value.shape == g[b].value.shape
    ensures t.origin == MultiplyOf(a, b) && t.value.shape == g[a].value.shape
    ensures forall i :: 0 <= i < |t.value.data| ==>
      t.value.data[i] == g[a].value.data[i] * g[b].value.data[i]
    ensures WellFormed(g) ==> WellFormed(g + [t])
    ensures Computed(g) ==> Computed(g + [t])
  {
    var t := Tensor(Times(g[a].value, g[b].value), MultiplyOf(a, b));
    Extend(g, t);
    t
  }

  /** `relu`: the element-wise maximum of the source and 0. */
  function Relu(g: seq<Tensor>, source: nat): (t: Tensor)
    requires source < |g|
    ensures t.origin == ReluOf(source) && t.value.shape == g[source].value.shape
    ensures forall i :: 0 <= i < |t.value.data| ==>
      t.value.data[i] >= 0 && t.value.data[i] >= g[source].value.data[i] &&
      (t.value.data[i] == 0 || t.value.data[i] == g[source].value.data[i])
    ensures WellFormed(g) ==> WellFormed(g + [t])
    ensures Computed(g) ==> Computed(g + [t])
  {
    var t := Tensor(PositivePart(g[source].value), ReluOf(source));
    Extend(g, t);
    t
  }

  /** `dot_product`: the matrix product of two conformable matrices. */
  function DotProduct(g: seq<Tensor>, a: nat, b: nat): (t: Tensor)
    requires a < |g| && b < |g| && IsMatrix(g[a].value) && IsMatrix(g[b].value)
    requires Cols(g[a].value) == Rows(g[b].value)
    ensures t.origin == DotProductOf(a, b)
    ensures t.value.shape == [Rows(g[a].value), Cols(g[b].value)]
    ensures forall i: nat, j: nat :: i < Rows(g[a].value) && j < Cols(g[b].value) ==>
      At(t.value, i, j) == RowTimesColumn(g[a].value, g[b].value, i, j, Cols(g[a].value))
    ensures WellFormed(g) ==> WellFormed(g + [t])
    ensures Computed(g) ==> Computed(g + [t])
  {
    var t := Tensor(Dot(g[a].value, g[b].value), DotProductOf(a, b));
    Extend(g, t);
    t
  }
}
