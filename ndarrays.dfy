/** The part of a dense N-dimensional array library that the autodiff engine
    relies on, over unbounded integers: shapes and element counts, arrays
    filled with one constant, element-wise arithmetic, the positive-part mask,
    summation of all elements, and the 2-D transpose and matrix product.
    Elements are stored in row-major order, as in a contiguous array. */
module NdArrays {

  /** f(0) + f(1) + ... + f(n - 1). */
  function Sum(n: nat, f: nat -> int): int
  {
    if n == 0 then 0 else Sum(n - 1, f) + f(n - 1)
  }

  /** The number of elements an array of this shape holds; a rank-0 shape holds one. */
  function Prod(shape: seq<nat>): nat
  {
    if shape == [] then 1 else shape[0] * Prod(shape[1..])
  }

  lemma {:induction false} ProdPair(rows: nat, cols: nat)
    ensures Prod([rows, cols]) == rows * cols
  {
    assert [rows, cols][1..] == [cols];
    assert [cols][1..] == [];
    assert Prod([cols]) == cols * Prod([]) == cols;
  }

  datatype NdArray = NdArray(shape: seq<nat>, data: seq<int>)

  /** A well-formed array: exactly as many elements as its shape describes. */
  type Array = a: NdArray | |a.data| == Prod(a.shape) witness NdArray([], [0])

  /** The element at flat position i, and 0 past the end. */
  function Elem(a: Array, i: nat): int
  {
    if i < |a.data| then a.data[i] else 0
  }

  /** An array of the given shape with every element equal to c (zeros_like, ones_like). */
  function Full(shape: seq<nat>, c: int): (r: Array)
    ensures r.shape == shape
    ensures forall i :: 0 <= i < |r.data| ==> r.data[i] == c
  {
    NdArray(shape, seq(Prod(shape), _ => c))
  }

  function Ones(shape: seq<nat>): (r: Array)
    ensures r.shape == shape
    ensures forall i :: 0 <= i < |r.data| ==> r.data[i] == 1
  {
    Full(shape, 1)
  }

  /** Multiplying element-wise by ones changes nothing. */
  lemma {:induction false} OnesTimes(d: Array)
    ensures Times(Ones(d.shape), d) == d
  {
    assert Times(Ones(d.shape), d).data == d.data;
  }

  function Plus(a: Array, b: Array): (r: Array)
    requires a.shape == b.shape
    ensures r.shape == a.shape
    ensures forall i :: 0 <= i < |r.data| ==> r.data[i] == a.data[i] + b.data[i]
  {
    NdArray(a.shape, seq(|a.data|, i requires 0 <= i < |a.data| => a.data[i] + b.data[i]))
  }

  function Minus(a: Array, b: Array): (r: Array)
    requires a.shape == b.shape
    ensures r.shape == a.shape
    ensures forall i :: 0 <= i < |r.data| ==> r.data[i] == a.data[i] - b.data[i]
  {
    NdArray(a.shape, seq(|a.data|, i requires 0 <= i < |a.data| => a.data[i] - b.data[i]))
  }

  /** Element-wise product. */
  function Times(a: Array, b: Array): (r: Array)
    requires a.shape == b.shape
    ensures r.shape == a.shape
    ensures forall i :: 0 <= i < |r.data| ==> r.data[i] == a.data[i] * b.data[i]
  {
    NdArray(a.shape, seq(|a.data|, i requires 0 <= i < |a.data| => a.data[i] * b.data[i]))
  }

  /** Every element multiplied by -1. */
  function Negate(a: Array): (r: Array)
    ensures r.shape == a.shape
    ensures forall i :: 0 <= i < |r.data| ==> r.data[i] == a.data[i] * -1
  {
    NdArray(a.shape, seq(|a.data|, i requires 0 <= i < |a.data| => a.data[i] * -1))
  }

  /** Element-wise maximum with 0. */
  function PositivePart(a: Array): (r: Array)
    ensures r.shape == a.shape
    ensures forall i :: 0 <= i < |r.data| ==> r.data[i] == if a.data[i] > 0 then a.data[i] else 0
  {
    NdArray(a.shape, seq(|a.data|, i requires 0 <= i < |a.data| => if a.data[i] > 0 then a.data[i] else 0))
  }

  /** 1 where the element is strictly positive and 0 elsewhere, 0 itself included. */
  function PositiveMask(a: Array): (r: Array)
    ensures r.shape == a.shape
    ensures forall i :: 0 <= i < |r.data| ==> r.data[i] == if a.data[i] > 0 then 1 else 0
  {
    NdArray(a.shape, seq(|a.data|, i requires 0 <= i < |a.data| => if a.data[i] > 0 then 1 else 0))
  }

  /** The sum of all elements. */
  function Total(a: Array): int
  {
    Sum(|a.data|, (i: nat) => Elem(a, i))
  }

  /** Summation of every element into a rank-0 array. */
  function SumAll(a: Array): (r: Array)
    ensures r.shape == [] && r.data == [Total(a)]
  {
    NdArray([], [Total(a)])
  }

  /** Sum of the element-wise products of two arrays of one shape. */
  function Inner(a: Array, b: Array): int
    requires a.shape == b.shape
  {
    Sum(|a.data|, (i: nat) => Elem(a, i) * Elem(b, i))
  }

  // ---------------------------------------------------------------------
  // Two-dimensional arrays

  predicate IsMatrix(a: Array)
  {
    |a.shape| == 2
  }

  function Rows(a: Array): nat
    requires IsMatrix(a)
  {
    a.shape[0]
  }

  function Cols(a: Array): nat
    requires IsMatrix(a)
  {
    a.shape[1]
  }

  lemma {:induction false} MatrixSize(a: Array)
    requires IsMatrix(a)
    ensures |a.data| == Rows(a) * Cols(a)
  {
    assert a.shape == [Rows(a), Cols(a)];
    ProdPair(Rows(a), Cols(a));
  }

  lemma {:induction false} RowMajorInRange(i: nat, j: nat, rows: nat, cols: nat)
    requires i < rows && j < cols
    ensures i * cols + j < rows * cols
  {
    if i + 1 < rows {
      RowMajorInRange(i, j, rows - 1, cols);
      assert rows * cols == (rows - 1) * cols + cols;
    } else {
      assert rows * cols == i * cols + cols;
    }
  }

  /** Entry (i, j) of a matrix, and 0 outside it. */
  function At(a: Array, i: nat, j: nat): int
  {
    if IsMatrix(a) && i < Rows(a) && j < Cols(a) then
      MatrixSize(a);
      RowMajorInRange(i, j, Rows(a), Cols(a));
      a.data[i * Cols(a) + j]
    else
      0
  }

  function Flatten(m: seq<seq<int>>): seq<int>
  {
    if m == [] then [] else m[0] + Flatten(m[1..])
  }

  lemma {:induction false} FlattenLength(m: seq<seq<int>>, cols: nat)
    requires forall k :: 0 <= k < |m| ==> |m[k]| == cols
    ensures |Flatten(m)| == |m| * cols
  {
    if m != [] {
      FlattenLength(m[1..], cols);
      assert |m| * cols == cols + (|m| - 1) * cols;
    }
  }

  lemma {:induction false} FlattenAt(m: seq<seq<int>>, cols: nat, i: nat, j: nat)
    requires forall k :: 0 <= k < |m| ==> |m[k]| == cols
    requires i < |m| && j < cols
    ensures i * cols + j < |Flatten(m)| && Flatten(m)[i * cols + j] == m[i][j]
  {
    FlattenLength(m, cols);
    RowMajorInRange(i, j, |m|, cols);
    assert Flatten(m) == m[0] + Flatten(m[1..]);
    if i > 0 {
      FlattenAt(m[1..], cols, i - 1, j);
      assert i * cols + j == cols + ((i - 1) * cols + j);
    }
  }

  /** Entry (i, j) of a matrix is its element at row-major position i * cols + j. */
  lemma {:induction false} AtIsElem(a: Array, i: nat, j: nat)
    requires IsMatrix(a) && i < Rows(a) && j < Cols(a)
    ensures i * Cols(a) + j < |a.data| && At(a, i, j) == Elem(a, i * Cols(a) + j)
  {
    MatrixSize(a);
    RowMajorInRange(i, j, Rows(a), Cols(a));
  }

  /** The rows x cols matrix whose entry (i, j) is f(i, j). */
  function Matrix(rows: nat, cols: nat, f: (nat, nat) -> int): (r: Array)
    ensures r.shape == [rows, cols]
    ensures forall i: nat, j: nat :: i < rows && j < cols ==> At(r, i, j) == f(i, j)
  {
    var m := seq(rows, (i: int) requires 0 <= i < rows => seq(cols, (j: int) requires 0 <= j < cols => f(i, j)));
    FlattenLength(m, cols);
    ProdPair(rows, cols);
    var r: Array := NdArray([rows, cols], Flatten(m));
    assert forall i: nat, j: nat :: i < rows && j < cols ==> At(r, i, j) == f(i, j) by {
      forall i: nat, j: nat | i < rows && j < cols
        ensures At(r, i, j) == f(i, j)
      {
        FlattenAt(m, cols, i, j);
      }
    }
    r
  }

  /** The transpose of a matrix (`.T`). */
  function Transpose(a: Array): (r: Array)
    requires IsMatrix(a)
    ensures r.shape == [Cols(a), Rows(a)]
    ensures forall i: nat, j: nat :: i < Cols(a) && j < Rows(a) ==> At(r, i, j) == At(a, j, i)
  {
    Matrix(Cols(a), Rows(a), (i: nat, j: nat) => At(a, j, i))
  }

  /** Row i of a times column j of b, over the first n terms. */
  function RowTimesColumn(a: Array, b: Array, i: nat, j: nat, n: nat): int
  {
    Sum(n, (k: nat) => At(a, i, k) * At(b, k, j))
  }

  /** The matrix product of two conformable matrices (`np.dot` on 2-D arrays). */
  function Dot(a: Array, b: Array): (r: Array)
    requires IsMatrix(a) && IsMatrix(b) && Cols(a) == Rows(b)
    ensures r.shape == [Rows(a), Cols(b)]
    ensures forall i: nat, j: nat :: i < Rows(a) && j < Cols(b) ==>
      At(r, i, j) == RowTimesColumn(a, b, i, j, Cols(a))
  {
    Matrix(Rows(a), Cols(b), (i: nat, j: nat) => RowTimesColumn(a, b, i, j, Cols(a)))
  }

  /** Sums whose terms agree are equal. */
  lemma {:induction false} SumCongruent(n: nat, f: nat -> int, h: nat -> int)
    requires forall k: nat :: k < n ==> f(k) == h(k)
    ensures Sum(n, f) == Sum(n, h)
  {
    if n > 0 {
      SumCongruent(n - 1, f, h);
    }
  }

  /** Entry (i, j) of aT d is column i of a times column j of d. */
  lemma {:induction false} TransposedTimes(a: Array, d: Array, i: nat, j: nat)
    requires IsMatrix(a) && IsMatrix(d) && Rows(a) == Rows(d) && i < Cols(a) && j < Cols(d)
    ensures At(Dot(Transpose(a), d), i, j) == Sum(Rows(a), (k: nat) => At(a, k, i) * At(d, k, j))
  {
    SumCongruent(Rows(a), (k: nat) => At(Transpose(a), i, k) * At(d, k, j),
                          (k: nat) => At(a, k, i) * At(d, k, j));
  }

  /** Entry (i, j) of d bT is row i of d times row j of b. */
  lemma {:induction false} TimesTransposed(d: Array, b: Array, i: nat, j: nat)
    requires IsMatrix(b) && IsMatrix(d) && Cols(d) == Cols(b) && i < Rows(d) && j < Rows(b)
    ensures At(Dot(d, Transpose(b)), i, j) == Sum(Cols(b), (k: nat) => At(d, i, k) * At(b, j, k))
  {
    SumCongruent(Cols(b), (k: nat) => At(d, i, k) * At(Transpose(b), k, j),
                          (k: nat) => At(d, i, k) * At(b, j, k));
  }
}
