/** Each local rule of `backward` is the exact derivative of its operation.
    Perturbing one operand's value by h changes the result by some array;
    weighting that change with the deltas d gives the same number as
    weighting h with the gradient the rule passes to that operand:
    Inner(d, f(a + h) - f(a)) == Inner(rule, h). Over integers the identity
    is exact for the linear and bilinear operations; for relu it holds as
    long as no element of the source changes sign. */
module Adjoints {
  import opened NdArrays
  import opened Tensors
  import opened Backprop

  /** Two inner products whose terms agree element by element are equal. */
  lemma {:induction false} InnerPointwise(d: Array, x: Array, w: Array, h: Array)
    requires d.shape == x.shape && w.shape == h.shape && |d.data| == |w.data|
    requires forall i :: 0 <= i < |d.data| ==> d.data[i] * x.data[i] == w.data[i] * h.data[i]
    ensures Inner(d, x) == Inner(w, h)
  {
    SumCongruent(|d.data|, (i: nat) => Elem(d, i) * Elem(x, i), (i: nat) => Elem(w, i) * Elem(h, i));
  }

  /** The difference of two sums is the sum of the differences. */
  lemma {:induction false} SumMinus(n: nat, f: nat -> int, h: nat -> int, e: nat -> int)
    requires forall k: nat :: k < n ==> f(k) - h(k) == e(k)
    ensures Sum(n, f) - Sum(n, h) == Sum(n, e)
  {
    if n > 0 {
      SumMinus(n - 1, f, h, e);
    }
  }

  /** `add`: both operands are passed the deltas. */
  lemma {:induction false} AddRuleIsDerivative(g: seq<Tensor>, t: nat, d: Array, h: Array)
    requires Computed(g) && t < |g| && g[t].origin.AddOf?
    requires d.shape == g[t].value.shape && h.shape == d.shape
    ensures var l, r := g[t].origin.left, g[t].origin.right;
      l < t && r < t && g[l].value.shape == h.shape && g[r].value.shape == h.shape &&
      var ws := OperandGrads(g, t, d);
      && |ws| == 2 && ws[0].index == l && ws[1].index == r
      && ws[0].grad.shape == h.shape && ws[1].grad.shape == h.shape
      && Inner(d, Minus(Plus(Plus(g[l].value, h), g[r].value), g[t].value)) == Inner(ws[0].grad, h)
      && Inner(d, Minus(Plus(g[l].value, Plus(g[r].value, h)), g[t].value)) == Inner(ws[1].grad, h)
  {
    assert WellFormedAt(g, t) && ComputedAt(g, t);
    var l, r := g[t].origin.left, g[t].origin.right;
    var a, b := g[l].value, g[r].value;
    var ws := OperandGrads(g, t, d);
    InnerPointwise(d, Minus(Plus(Plus(a, h), b), g[t].value), ws[0].grad, h);
    InnerPointwise(d, Minus(Plus(a, Plus(b, h)), g[t].value), ws[1].grad, h);
  }

  /** `subtract`: the left operand is passed the deltas, the right one their
      negation. */
  lemma {:induction false} SubtractRuleIsDerivative(g: seq<Tensor>, t: nat, d: Array, h: Array)
    requires Computed(g) && t < |g| && g[t].origin.SubtractOf?
    requires d.shape == g[t].value.shape && h.shape == d.shape
    ensures var l, r := g[t].origin.left, g[t].origin.right;
      l < t && r < t && g[l].value.shape == h.shape && g[r].value.shape == h.shape &&
      var ws := OperandGrads(g, t, d);
      && |ws| == 2 && ws[0].index == l && ws[1].index == r
      && ws[0].grad.shape == h.shape && ws[1].grad.shape == h.shape
      && Inner(d, Minus(Minus(Plus(g[l].value, h), g[r].value), g[t].value)) == Inner(ws[0].grad, h)
      && Inner(d, Minus(Minus(g[l].value, Plus(g[r].value, h)), g[t].value)) == Inner(ws[1].grad, h)
  {
    assert WellFormedAt(g, t) && ComputedAt(g, t);
    var l, r := g[t].origin.left, g[t].origin.right;
    var a, b := g[l].value, g[r].value;
    var ws := OperandGrads(g, t, d);
    InnerPointwise(d, Minus(Minus(Plus(a, h), b), g[t].value), ws[0].grad, h);
    InnerPointwise(d, Minus(Minus(a, Plus(b, h)), g[t].value), ws[1].grad, h);
  }

  /** `multiply`: each operand is passed the deltas times the other's value. */
  lemma {:induction false} MultiplyRuleIsDerivative(g: seq<Tensor>, t: nat, d: Array, h: Array)
    requires Computed(g) && t < |g| && g[t].origin.MultiplyOf?
    requires d.shape == g[t].value.shape && h.shape == d.shape
    ensures var l, r := g[t].origin.left, g[t].origin.right;
      l < t && r < t && g[l].value.shape == h.shape && g[r].value.shape == h.shape &&
      var ws := OperandGrads(g, t, d);
      && |ws| == 2 && ws[0].index == l && ws[1].index == r
      && ws[0].grad.shape == h.shape && ws[1].grad.shape == h.shape
      && Inner(d, Minus(Times(Plus(g[l].value, h), g[r].value), g[t].value)) == Inner(ws[0].grad, h)
      && Inner(d, Minus(Times(g[l].value, Plus(g[r].value, h)), g[t].value)) == Inner(ws[1].grad, h)
  {
    assert WellFormedAt(g, t) && ComputedAt(g, t);
    var l, r := g[t].origin.left, g[t].origin.right;
    var a, b := g[l].value, g[r].value;
    var ws := OperandGrads(g, t, d);
    var left, right := Minus(Times(Plus(a, h), b), g[t].value), Minus(Times(a, Plus(b, h)), g[t].value);
    forall i | 0 <= i < |d.data|
      ensures d.data[i] * left.data[i] == ws[0].grad.data[i] * h.data[i]
      ensures d.data[i] * right.data[i] == ws[1].grad.data[i] * h.data[i]
    {
      assert left.data[i] == (a.data[i] + h.data[i]) * b.data[i] - a.data[i] * b.data[i];
      assert left.data[i] == h.data[i] * b.data[i];
      assert right.data[i] == a.data[i] * (b.data[i] + h.data[i]) - a.data[i] * b.data[i];
      assert right.data[i] == a.data[i] * h.data[i];
    }
    InnerPointwise(d, left, ws[0].grad, h);
    InnerPointwise(d, right, ws[1].grad, h);
  }

  /** No element of a + h lies on the other side of 0 from the same element of a. */
  predicate KeepsSigns(a: Array, h: Array)
    requires a.shape == h.shape
  {
    forall i :: 0 <= i < |a.data| ==> (a.data[i] > 0 <==> a.data[i] + h.data[i] > 0)
  }

  /** `relu`: the source is passed the deltas masked by the sign of its value.
      Where the perturbation makes an element cross 0 the identity is not
      exact, and the mask takes 0 itself as not positive. */
  lemma {:induction false} ReluRuleIsDerivative(g: seq<Tensor>, t: nat, d: Array, h: Array)
    requires Computed(g) && t < |g| && g[t].origin.ReluOf?
    requires d.shape == g[t].value.shape && h.shape == d.shape
    requires g[t].origin.source < t && g[g[t].origin.source].value.shape == h.shape
    requires KeepsSigns(g[g[t].origin.source].value, h)
    ensures var s := g[t].origin.source;
      g[s].value.shape == h.shape &&
      var ws := OperandGrads(g, t, d);
      && |ws| == 1 && ws[0].index == s && ws[0].grad.shape == h.shape
      && Inner(d, Minus(PositivePart(Plus(g[s].value, h)), g[t].value)) == Inner(ws[0].grad, h)
  {
    assert WellFormedAt(g, t) && ComputedAt(g, t);
    var s := g[t].origin.source;
    var a := g[s].value;
    var ws := OperandGrads(g, t, d);
    var change := Minus(PositivePart(Plus(a, h)), g[t].value);
    forall i | 0 <= i < |d.data|
      ensures d.data[i] * change.data[i] == ws[0].grad.data[i] * h.data[i]
    {
      if a.data[i] > 0 {
        assert change.data[i] == h.data[i];
      } else {
        assert change.data[i] == 0;
      }
    }
    InnerPointwise(d, change, ws[0].grad, h);
  }

  /** `sui_sum`: the seedless path passes the source all ones, the derivative
      of the sum of all elements. */
  lemma {:induction false} SumSeedIsDerivative(g: seq<Tensor>, t: nat, h: Array)
    requires Computed(g) && t < |g| && g[t].origin.SumOf?
    requires g[t].origin.source < t && h.shape == g[g[t].origin.source].value.shape
    ensures var s := g[t].origin.source;
      && g[t].value == SumAll(g[s].value)
      && Total(Plus(g[s].value, h)) - Total(g[s].value) == Inner(Ones(h.shape), h)
  {
    assert WellFormedAt(g, t) && ComputedAt(g, t);
    var a := g[g[t].origin.source].value;
    var ones := Ones(h.shape);
    var n := |a.data|;
    assert |Plus(a, h).data| == n && |ones.data| == n && |h.data| == n;
    forall i: nat | i < n
      ensures Elem(Plus(a, h), i) - Elem(a, i) == Elem(ones, i) * Elem(h, i)
    {
    }
    SumMinus(n, (i: nat) => Elem(Plus(a, h), i), (i: nat) => Elem(a, i), (i: nat) => Elem(ones, i) * Elem(h, i));
    assert g[t].value == SumAll(a);
  }

  // ---------------------------------------------------------------------
  // Sums over the entries of a matrix, for the matrix product

  lemma {:induction false} SumPlus(n: nat, f: nat -> int, h: nat -> int, e: nat -> int)
    requires forall k: nat :: k < n ==> f(k) + h(k) == e(k)
    ensures Sum(n, f) + Sum(n, h) == Sum(n, e)
  {
    if n > 0 {
      SumPlus(n - 1, f, h, e);
    }
  }

  /** A constant factor moves into a sum. */
  lemma {:induction false} SumScale(n: nat, c: int, f: nat -> int, e: nat -> int)
    requires forall k: nat :: k < n ==> c * f(k) == e(k)
    ensures c * Sum(n, f) == Sum(n, e)
  {
    if n > 0 {
      SumScale(n - 1, c, f, e);
      assert c * Sum(n, f) == c * Sum(n - 1, f) + c * f(n - 1);
    }
  }

  /** A sum of m + c terms is the first m plus the last c. */
  lemma {:induction false} SumSplit(m: nat, c: nat, f: nat -> int, e: nat -> int)
    requires forall j: nat :: j < c ==> f(m + j) == e(j)
    ensures Sum(m + c, f) == Sum(m, f) + Sum(c, e)
  {
    if c > 0 {
      SumSplit(m, c - 1, f, e);
    }
  }

  /** A sum over row-major positions, taken row by row: R(i) lists row i. */
  lemma {:induction false} SumRows(rows: nat, cols: nat, f: nat -> int, R: nat -> nat -> int, F: nat -> int)
    requires forall i: nat, j: nat :: i < rows && j < cols ==> R(i)(j) == f(i * cols + j)
    requires forall i: nat :: i < rows ==> F(i) == Sum(cols, R(i))
    ensures Sum(rows * cols, f) == Sum(rows, F)
  {
    if rows > 0 {
      SumRows(rows - 1, cols, f, R, F);
      assert rows * cols == (rows - 1) * cols + cols;
      SumSplit((rows - 1) * cols, cols, f, R(rows - 1));
    }
  }

  /** The order of a double sum does not matter. */
  lemma {:induction false} SumSwap(n: nat, m: nat, F: (nat, nat) -> int)
    ensures Sum(n, (i: nat) => Sum(m, (j: nat) => F(i, j))) == Sum(m, (j: nat) => Sum(n, (i: nat) => F(i, j)))
  {
    if n > 0 {
      SumSwap(n - 1, m, F);
      assert Sum(n, (i: nat) => Sum(m, (j: nat) => F(i, j)))
          == Sum(n - 1, (i: nat) => Sum(m, (j: nat) => F(i, j))) + Sum(m, (j: nat) => F(n - 1, j));
      SumPlus(m, (j: nat) => Sum(n - 1, (i: nat) => F(i, j)), (j: nat) => F(n - 1, j),
                 (j: nat) => Sum(n, (i: nat) => F(i, j)));
    } else {
      SumScale(m, 0, (j: nat) => 0, (j: nat) => Sum(n, (i: nat) => F(i, j)));
    }
  }

  lemma {:induction false} AtPointwise(x: Array, y: Array, i: nat, j: nat)
    requires IsMatrix(x) && x.shape == y.shape && i < Rows(x) && j < Cols(x)
    ensures At(Plus(x, y), i, j) == At(x, i, j) + At(y, i, j)
    ensures At(Minus(x, y), i, j) == At(x, i, j) - At(y, i, j)
  {
    MatrixSize(x);
    RowMajorInRange(i, j, Rows(x), Cols(x));
  }

  lemma {:induction false} Distributes(x: int, y: int, z: int)
    ensures (x + y) * z - x * z == y * z
    ensures x * (y + z) - x * y == x * z
  {
  }

  /** Row i of x times row i of y, element by element and summed. */
  function RowInner(x: Array, y: Array, i: nat): int
    requires IsMatrix(x)
  {
    Sum(Cols(x), (j: nat) => At(x, i, j) * At(y, i, j))
  }

  /** Row i of a matrix occupies positions i * cols to i * cols + cols - 1. */
  lemma {:induction false} RowEntries(x: Array, y: Array, i: nat)
    requires IsMatrix(x) && x.shape == y.shape && i < Rows(x)
    ensures RowInner(x, y, i) == Sum(Cols(x), (j: nat) => Elem(x, i * Cols(x) + j) * Elem(y, i * Cols(x) + j))
  {
    forall j: nat | j < Cols(x)
      ensures At(x, i, j) * At(y, i, j) == Elem(x, i * Cols(x) + j) * Elem(y, i * Cols(x) + j)
    {
      AtIsElem(x, i, j);
      AtIsElem(y, i, j);
    }
    SumCongruent(Cols(x), (j: nat) => At(x, i, j) * At(y, i, j),
                          (j: nat) => Elem(x, i * Cols(x) + j) * Elem(y, i * Cols(x) + j));
  }

  /** The inner product of two matrices, row by row. */
  lemma {:induction false} InnerByEntries(x: Array, y: Array)
    requires IsMatrix(x) && x.shape == y.shape
    ensures Inner(x, y) == Sum(Rows(x), (i: nat) => RowInner(x, y, i))
  {
    MatrixSize(x);
    forall i: nat | i < Rows(x)
      ensures RowInner(x, y, i) == Sum(Cols(x), (j: nat) => Elem(x, i * Cols(x) + j) * Elem(y, i * Cols(x) + j))
    {
      RowEntries(x, y, i);
    }
    SumRows(Rows(x), Cols(x), (k: nat) => Elem(x, k) * Elem(y, k),
            (i: nat) => (j: nat) => Elem(x, i * Cols(x) + j) * Elem(y, i * Cols(x) + j),
            (i: nat) => RowInner(x, y, i));
  }

  /** Perturbing the left factor of a product by h changes entry (i, j) by
      row i of h times column j of the right factor. */
  lemma {:induction false} DotLeftDifference(a: Array, h: Array, b: Array, i: nat, j: nat)
    requires IsMatrix(a) && IsMatrix(b) && Cols(a) == Rows(b) && h.shape == a.shape
    requires i < Rows(a) && j < Cols(b)
    ensures At(Minus(Dot(Plus(a, h), b), Dot(a, b)), i, j) == Sum(Cols(a), (k: nat) => At(h, i, k) * At(b, k, j))
  {
    var ah := Plus(a, h);
    var p, q := Dot(ah, b), Dot(a, b);
    assert At(Minus(p, q), i, j) == Sum(Cols(a), (k: nat) => At(ah, i, k) * At(b, k, j))
                                  - Sum(Cols(a), (k: nat) => At(a, i, k) * At(b, k, j)) by {
      AtPointwise(p, q, i, j);
    }
    forall k: nat | k < Cols(a)
      ensures At(ah, i, k) * At(b, k, j) - At(a, i, k) * At(b, k, j) == At(h, i, k) * At(b, k, j)
    {
      AtPointwise(a, h, i, k);
      Distributes(At(a, i, k), At(h, i, k), At(b, k, j));
    }
    SumMinus(Cols(a), (k: nat) => At(ah, i, k) * At(b, k, j), (k: nat) => At(a, i, k) * At(b, k, j),
                      (k: nat) => At(h, i, k) * At(b, k, j));
  }


  /** Perturbing the right factor of a product by h changes entry (i, j) by
      row i of the left factor times column j of h. */
  lemma {:induction false} DotRightDifference(a: Array, b: Array, h: Array, i: nat, j: nat)
    requires IsMatrix(a) && IsMatrix(b) && Cols(a) == Rows(b) && h.shape == b.shape
    requires i < Rows(a) && j < Cols(b)
    ensures At(Minus(Dot(a, Plus(b, h)), Dot(a, b)), i, j) == Sum(Cols(a), (k: nat) => At(a, i, k) * At(h, k, j))
  {
    var bh := Plus(b, h);
    var p, q := Dot(a, bh), Dot(a, b);
    assert At(Minus(p, q), i, j) == Sum(Cols(a), (k: nat) => At(a, i, k) * At(bh, k, j))
                                  - Sum(Cols(a), (k: nat) => At(a, i, k) * At(b, k, j)) by {
      AtPointwise(p, q, i, j);
    }
    forall k: nat | k < Cols(a)
      ensures At(a, i, k) * At(bh, k, j) - At(a, i, k) * At(b, k, j) == At(a, i, k) * At(h, k, j)
    {
      AtPointwise(b, h, k, j);
      Distributes(At(a, i, k), At(b, k, j), At(h, k, j));
    }
    SumMinus(Cols(a), (k: nat) => At(a, i, k) * At(bh, k, j), (k: nat) => At(a, i, k) * At(b, k, j),
                      (k: nat) => At(a, i, k) * At(h, k, j));
  }

  lemma {:induction false} Rearranges(x: int, y: int, z: int)
    ensures x * (y * z) == y * (x * z)
  {
  }

  /** Row `row` of the identity for a perturbed left factor. */
  lemma {:induction false} DotLeftRow(a: Array, b: Array, d: Array, h: Array, row: nat)
    requires IsMatrix(a) && IsMatrix(b) && Cols(a) == Rows(b) && h.shape == a.shape
    requires d.shape == [Rows(a), Cols(b)] && row < Rows(a)
    ensures RowInner(d, Minus(Dot(Plus(a, h), b), Dot(a, b)), row)
         == RowInner(Dot(d, Transpose(b)), h, row)
  {
    var x, gr := Minus(Dot(Plus(a, h), b), Dot(a, b)), Dot(d, Transpose(b));
    var p, m := Cols(a), Cols(b);
    var F := (i: nat, j: nat) => At(d, row, i) * (At(h, row, j) * At(b, j, i));
    forall i: nat | i < m
      ensures At(d, row, i) * At(x, row, i) == Sum(p, (j: nat) => F(i, j))
    {
      DotLeftDifference(a, h, b, row, i);
      SumScale(p, At(d, row, i), (k: nat) => At(h, row, k) * At(b, k, i), (j: nat) => F(i, j));
    }
    SumCongruent(m, (j: nat) => At(d, row, j) * At(x, row, j), (i: nat) => Sum(p, (j: nat) => F(i, j)));
    SumSwap(m, p, F);
    forall j: nat | j < p
      ensures Sum(m, (i: nat) => F(i, j)) == At(gr, row, j) * At(h, row, j)
    {
      TimesTransposed(d, b, row, j);
      forall k: nat | k < m
        ensures At(h, row, j) * (At(d, row, k) * At(b, j, k)) == F(k, j)
      {
        Rearranges(At(h, row, j), At(d, row, k), At(b, j, k));
      }
      SumScale(m, At(h, row, j), (k: nat) => At(d, row, k) * At(b, j, k), (i: nat) => F(i, j));
    }
    SumCongruent(p, (j: nat) => Sum(m, (i: nat) => F(i, j)), (j: nat) => At(gr, row, j) * At(h, row, j));
  }

  /** `dot_product`, left operand: the deltas times the transposed right
      operand are the derivative of the product in its left factor. */
  lemma {:induction false} DotLeftIdentity(a: Array, b: Array, d: Array, h: Array)
    requires IsMatrix(a) && IsMatrix(b) && Cols(a) == Rows(b) && h.shape == a.shape
    requires d.shape == [Rows(a), Cols(b)]
    ensures Inner(d, Minus(Dot(Plus(a, h), b), Dot(a, b))) == Inner(Dot(d, Transpose(b)), h)
  {
    var x, gr := Minus(Dot(Plus(a, h), b), Dot(a, b)), Dot(d, Transpose(b));
    InnerByEntries(d, x);
    InnerByEntries(gr, h);
    forall row: nat | row < Rows(a)
      ensures RowInner(d, x, row) == RowInner(gr, h, row)
    {
      DotLeftRow(a, b, d, h, row);
    }
    SumCongruent(Rows(a), (i: nat) => RowInner(d, x, i), (i: nat) => RowInner(gr, h, i));
  }

  lemma {:induction false} Reverses(x: int, y: int, z: int)
    ensures x * (y * z) == z * (y * x)
  {
  }

  /** Column j of d weighted with entry (i, k) of a and row k of h. */
  function RightTerm(a: Array, d: Array, h: Array, i: nat, k: nat): int
    requires IsMatrix(d)
  {
    Sum(Cols(d), (j: nat) => At(d, i, j) * (At(a, i, k) * At(h, k, j)))
  }

  /** Row `row` of the identity for a perturbed right factor, as a sum over
      the columns of the left factor. */
  lemma {:induction false} DotRightRow(a: Array, b: Array, d: Array, h: Array, row: nat)
    requires IsMatrix(a) && IsMatrix(b) && Cols(a) == Rows(b) && h.shape == b.shape
    requires d.shape == [Rows(a), Cols(b)] && row < Rows(a)
    ensures RowInner(d, Minus(Dot(a, Plus(b, h)), Dot(a, b)), row)
         == Sum(Cols(a), (k: nat) => RightTerm(a, d, h, row, k))
  {
    var x := Minus(Dot(a, Plus(b, h)), Dot(a, b));
    var p, m := Cols(a), Cols(b);
    var F := (i: nat, j: nat) => At(d, row, i) * (At(a, row, j) * At(h, j, i));
    forall i: nat | i < m
      ensures At(d, row, i) * At(x, row, i) == Sum(p, (j: nat) => F(i, j))
    {
      DotRightDifference(a, b, h, row, i);
      SumScale(p, At(d, row, i), (k: nat) => At(a, row, k) * At(h, k, i), (j: nat) => F(i, j));
    }
    SumCongruent(m, (j: nat) => At(d, row, j) * At(x, row, j), (i: nat) => Sum(p, (j: nat) => F(i, j)));
    SumSwap(m, p, F);
    forall k: nat | k < p
      ensures Sum(m, (i: nat) => F(i, k)) == RightTerm(a, d, h, row, k)
    {
      SumCongruent(m, (i: nat) => F(i, k), (j: nat) => At(d, row, j) * (At(a, row, k) * At(h, k, j)));
    }
    SumCongruent(p, (j: nat) => Sum(m, (i: nat) => F(i, j)), (k: nat) => RightTerm(a, d, h, row, k));
  }

  /** Row k of the gradient passed to the right factor, weighted with row k
      of h, as a sum over the rows of the left factor. */
  lemma {:induction false} DotRightColumn(a: Array, b: Array, d: Array, h: Array, k: nat)
    requires IsMatrix(a) && IsMatrix(b) && Cols(a) == Rows(b) && h.shape == b.shape
    requires d.shape == [Rows(a), Cols(b)] && k < Cols(a)
    ensures Sum(Rows(a), (i: nat) => RightTerm(a, d, h, i, k)) == RowInner(Dot(Transpose(a), d), h, k)
  {
    var gr := Dot(Transpose(a), d);
    var n, m := Rows(a), Cols(b);
    var G := (i: nat, j: nat) => At(d, i, j) * (At(a, i, k) * At(h, k, j));
    forall i: nat | i < n
      ensures RightTerm(a, d, h, i, k) == Sum(m, (j: nat) => G(i, j))
    {
      SumCongruent(m, (j: nat) => At(d, i, j) * (At(a, i, k) * At(h, k, j)), (j: nat) => G(i, j));
    }
    SumCongruent(n, (i: nat) => RightTerm(a, d, h, i, k), (i: nat) => Sum(m, (j: nat) => G(i, j)));
    SumSwap(n, m, G);
    forall j: nat | j < m
      ensures Sum(n, (i: nat) => G(i, j)) == At(gr, k, j) * At(h, k, j)
    {
      TransposedTimes(a, d, k, j);
      forall i: nat | i < n
        ensures At(h, k, j) * (At(a, i, k) * At(d, i, j)) == G(i, j)
      {
        Reverses(At(h, k, j), At(a, i, k), At(d, i, j));
      }
      SumScale(n, At(h, k, j), (i: nat) => At(a, i, k) * At(d, i, j), (i: nat) => G(i, j));
    }
    SumCongruent(m, (j: nat) => Sum(n, (i: nat) => G(i, j)), (j: nat) => At(gr, k, j) * At(h, k, j));
  }

  /** `dot_product`, right operand: the transposed left operand times the
      deltas are the derivative of the product in its right factor. */
  lemma {:induction false} DotRightIdentity(a: Array, b: Array, d: Array, h: Array)
    requires IsMatrix(a) && IsMatrix(b) && Cols(a) == Rows(b) && h.shape == b.shape
    requires d.shape == [Rows(a), Cols(b)]
    ensures Inner(d, Minus(Dot(a, Plus(b, h)), Dot(a, b))) == Inner(Dot(Transpose(a), d), h)
  {
    var x, gr := Minus(Dot(a, Plus(b, h)), Dot(a, b)), Dot(Transpose(a), d);
    var T := (i: nat, k: nat) => RightTerm(a, d, h, i, k);
    InnerByEntries(d, x);
    InnerByEntries(gr, h);
    forall row: nat | row < Rows(a)
      ensures RowInner(d, x, row) == Sum(Cols(a), (j: nat) => T(row, j))
    {
      DotRightRow(a, b, d, h, row);
      SumCongruent(Cols(a), (k: nat) => RightTerm(a, d, h, row, k), (j: nat) => T(row, j));
    }
    SumCongruent(Rows(a), (i: nat) => RowInner(d, x, i), (i: nat) => Sum(Cols(a), (j: nat) => T(i, j)));
    SumSwap(Rows(a), Cols(a), T);
    forall k: nat | k < Cols(a)
      ensures Sum(Rows(a), (i: nat) => T(i, k)) == RowInner(gr, h, k)
    {
      DotRightColumn(a, b, d, h, k);
      SumCongruent(Rows(a), (i: nat) => T(i, k), (i: nat) => RightTerm(a, d, h, i, k));
    }
    SumCongruent(Cols(a), (j: nat) => Sum(Rows(a), (i: nat) => T(i, j)), (k: nat) => RowInner(gr, h, k));
  }

  /** `dot_product`: the left operand is passed the deltas times the
      transposed right operand, and the right operand the transposed left
      operand times the deltas. */
  lemma {:induction false} DotProductRuleIsDerivative(g: seq<Tensor>, t: nat, d: Array, hl: Array, hr: Array)
    requires Computed(g) && t < |g| && g[t].origin.DotProductOf?
    requires d.shape == g[t].value.shape
    requires g[t].origin.left < t && g[t].origin.right < t
    requires hl.shape == g[g[t].origin.left].value.shape && hr.shape == g[g[t].origin.right].value.shape
    ensures var l, r := g[t].origin.left, g[t].origin.right;
      IsMatrix(g[l].value) && IsMatrix(g[r].value) && Cols(g[l].value) == Rows(g[r].value) &&
      g[t].value == Dot(g[l].value, g[r].value) &&
      var ws := OperandGrads(g, t, d);
      && |ws| == 2 && ws[0].index == l && ws[1].index == r
      && ws[0].grad.shape == hl.shape && ws[1].grad.shape == hr.shape
      && Inner(d, Minus(Dot(Plus(g[l].value, hl), g[r].value), g[t].value)) == Inner(ws[0].grad, hl)
      && Inner(d, Minus(Dot(g[l].value, Plus(g[r].value, hr)), g[t].value)) == Inner(ws[1].grad, hr)
  {
    assert WellFormedAt(g, t) && ComputedAt(g, t);
    var l, r := g[t].origin.left, g[t].origin.right;
    DotLeftIdentity(g[l].value, g[r].value, d, hl);
    DotRightIdentity(g[l].value, g[r].value, d, hr);
  }
}
