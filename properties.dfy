/** What `backward(deltas)` leaves in the gradients of a tensor's operands,
    rule by rule, and what the seedless `backward()` leaves in some small
    graphs. All of it follows from the specification `Trace`, which
    `Graph.Backward` and `Graph.BackwardFromScalar` are proved to carry out. */
module BackwardProperties {
  import opened NdArrays
  import opened Tensors
  import opened Backprop

  /** The grad store after `backward(d)` on tensor t. */
  function After(g: seq<Tensor>, grads: seq<Array>, t: nat, d: Array): (r: seq<Array>)
    requires WellFormed(g) && t < |g| && d.shape == g[t].value.shape && |grads| == |g|
    ensures |r| == |grads| && r[t] == d
  {
    OwnGradIsDeltas(g, grads, t, d);
    Apply(grads, Trace(g, t, d))
  }

  /** The operand recursed into last ends with exactly the gradient its rule
      passes it: its own call overwrites whatever the `+=` left, and nothing
      after that call assigns it again. */
  lemma {:induction false} LastOperandGrad(g: seq<Tensor>, grads: seq<Array>, t: nat, d: Array)
    requires WellFormed(g) && t < |g| && d.shape == g[t].value.shape && |grads| == |g|
    requires |OperandGrads(g, t, d)| > 0
    ensures var ws := OperandGrads(g, t, d);
      After(g, grads, t, d)[ws[|ws| - 1].index] == ws[|ws| - 1].grad
  {
    var ws := OperandGrads(g, t, d);
    var own := grads[t := d];
    TraceUnfold(g, t, d);
    var a := Trace(g, ws[0].index, ws[0].grad);
    assert Below(a, |grads|) by {
      assert forall i :: 0 < i < |a| ==> a[i].index == a[1..][i - 1].index;
    }
    if |ws| == 1 {
      ApplyHead(grads, Write(t, d), a);
      OwnGradIsDeltas(g, own, ws[0].index, ws[0].grad);
    } else {
      var b := Trace(g, ws[1].index, ws[1].grad);
      assert Below(b, |grads|) by {
        assert forall i :: 0 < i < |b| ==> b[i].index == b[1..][i - 1].index;
      }
      ApplyConcat(own, a, b);
      ApplyHead(grads, Write(t, d), a + b);
      OwnGradIsDeltas(g, Apply(own, a), ws[1].index, ws[1].grad);
    }
  }

  /** The operand recursed into first keeps the gradient its rule passes it
      only if the other operand's traversal cannot reach it. */
  lemma {:induction false} FirstOperandGrad(g: seq<Tensor>, grads: seq<Array>, t: nat, d: Array)
    requires WellFormed(g) && t < |g| && d.shape == g[t].value.shape && |grads| == |g|
    requires |OperandGrads(g, t, d)| == 2
    requires var ws := OperandGrads(g, t, d); ws[0].index !in Ancestors(g, ws[1].index)
    ensures var ws := OperandGrads(g, t, d); After(g, grads, t, d)[ws[0].index] == ws[0].grad
  {
    var ws := OperandGrads(g, t, d);
    var own := grads[t := d];
    TraceUnfold(g, t, d);
    var a, b := Trace(g, ws[0].index, ws[0].grad), Trace(g, ws[1].index, ws[1].grad);
    assert Below(a, |grads|) && Below(b, |grads|) by {
      assert forall i :: 0 < i < |a| ==> a[i].index == a[1..][i - 1].index;
      assert forall i :: 0 < i < |b| ==> b[i].index == b[1..][i - 1].index;
    }
    ApplyConcat(own, a, b);
    ApplyHead(grads, Write(t, d), a + b);
    OwnGradIsDeltas(g, own, ws[0].index, ws[0].grad);
    OutsideAncestorsUnchanged(g, Apply(own, a), ws[1].index, ws[1].grad, ws[0].index);
  }

  /** `add`: both operands are passed the deltas themselves (ones times deltas). */
  lemma {:induction false} AddPassesDeltas(g: seq<Tensor>, grads: seq<Array>, t: nat, d: Array)
    requires WellFormed(g) && t < |g| && d.shape == g[t].value.shape && |grads| == |g|
    requires g[t].origin.AddOf?
    ensures var l, r := g[t].origin.left, g[t].origin.right;
      && l < t && r < t
      && After(g, grads, t, d)[r] == d
      && (l !in Ancestors(g, r) ==> After(g, grads, t, d)[l] == d)
  {
    LastOperandGrad(g, grads, t, d);
    if g[t].origin.left !in Ancestors(g, g[t].origin.right) {
      FirstOperandGrad(g, grads, t, d);
    }
  }

  /** `add(a, a)` for a leaf a: the operand is reached twice, but keeps one
      contribution and not their sum. */
  lemma {:induction false} AddToItselfKeepsOneContribution(g: seq<Tensor>, grads: seq<Array>, t: nat, d: Array, i: nat)
    requires WellFormed(g) && t < |g| && d.shape == g[t].value.shape && |grads| == |g|
    requires g[t].origin.AddOf? && g[t].origin.left == g[t].origin.right
    requires g[t].origin.left < t && g[g[t].origin.left].origin.Leaf?
    requires i < |d.data| && d.data[i] != 0
    ensures var a := g[t].origin.left;
      a < t && After(g, grads, t, d)[a] == d && After(g, grads, t, d)[a] != Plus(d, d)
  {
    AddPassesDeltas(g, grads, t, d);
    assert Plus(d, d).data[i] != d.data[i];
  }

  /** `subtract`: the left operand is passed the deltas and the right one
      their negation. */
  lemma {:induction false} SubtractPassesNegation(g: seq<Tensor>, grads: seq<Array>, t: nat, d: Array)
    requires WellFormed(g) && t < |g| && d.shape == g[t].value.shape && |grads| == |g|
    requires g[t].origin.SubtractOf?
    ensures var l, r := g[t].origin.left, g[t].origin.right;
      && l < t && r < t
      && After(g, grads, t, d)[r].shape == d.shape
      && (forall i :: 0 <= i < |d.data| ==> After(g, grads, t, d)[r].data[i] == -d.data[i])
      && (l !in Ancestors(g, r) ==> After(g, grads, t, d)[l] == d)
  {
    LastOperandGrad(g, grads, t, d);
    if g[t].origin.left !in Ancestors(g, g[t].origin.right) {
      FirstOperandGrad(g, grads, t, d);
    }
  }

  /** `multiply`: each operand is passed the deltas times the other operand's
      value. */
  lemma {:induction false} MultiplySwapsValues(g: seq<Tensor>, grads: seq<Array>, t: nat, d: Array)
    requires WellFormed(g) && t < |g| && d.shape == g[t].value.shape && |grads| == |g|
    requires g[t].origin.MultiplyOf?
    ensures var l, r := g[t].origin.left, g[t].origin.right;
      && l < t && r < t
      && g[l].value.shape == d.shape && g[r].value.shape == d.shape
      && After(g, grads, t, d)[r].shape == d.shape
      && (forall i :: 0 <= i < |d.data| ==>
            After(g, grads, t, d)[r].data[i] == d.data[i] * g[l].value.data[i])
      && (l !in Ancestors(g, r) ==>
            After(g, grads, t, d)[l].shape == d.shape &&
            forall i :: 0 <= i < |d.data| ==>
              After(g, grads, t, d)[l].data[i] == d.data[i] * g[r].value.data[i])
  {
    assert WellFormedAt(g, t);
    LastOperandGrad(g, grads, t, d);
    if g[t].origin.left !in Ancestors(g, g[t].origin.right) {
      FirstOperandGrad(g, grads, t, d);
    }
  }

  /** `relu`: the source is passed the deltas where its value is strictly
      positive and 0 elsewhere, at 0 included. */
  lemma {:induction false} ReluMasksDeltas(g: seq<Tensor>, grads: seq<Array>, t: nat, d: Array)
    requires WellFormed(g) && t < |g| && d.shape == g[t].value.shape && |grads| == |g|
    requires g[t].origin.ReluOf?
    ensures var s := g[t].origin.source;
      && s < t
      && After(g, grads, t, d)[s].shape == d.shape
      && forall i :: 0 <= i < |d.data| ==>
           After(g, grads, t, d)[s].data[i] == if g[s].value.data[i] > 0 then d.data[i] else 0
  {
    assert WellFormedAt(g, t);
    LastOperandGrad(g, grads, t, d);
  }

  /** `dot_product`: the right operand is passed the transposed left value
      times the deltas, and the left operand the deltas times the transposed
      right value; each has the shape of the operand it is passed to. */
  lemma {:induction false} DotProductTransposes(g: seq<Tensor>, grads: seq<Array>, t: nat, d: Array)
    requires WellFormed(g) && t < |g| && d.shape == g[t].value.shape && |grads| == |g|
    requires g[t].origin.DotProductOf?
    ensures var l, r := g[t].origin.left, g[t].origin.right;
      l < t && r < t &&
      var a, b, after := g[l].value, g[r].value, After(g, grads, t, d);
      && IsMatrix(a) && IsMatrix(b) && IsMatrix(d)
      && after[r].shape == b.shape
      && (forall i: nat, j: nat :: i < Rows(b) && j < Cols(b) ==>
            At(after[r], i, j) == Sum(Rows(a), (k: nat) => At(a, k, i) * At(d, k, j)))
      && (l !in Ancestors(g, r) ==>
            && after[l].shape == a.shape
            && forall i: nat, j: nat :: i < Rows(a) && j < Cols(a) ==>
                 At(after[l], i, j) == Sum(Cols(b), (k: nat) => At(d, i, k) * At(b, j, k)))
  {
    assert WellFormedAt(g, t);
    var l, r := g[t].origin.left, g[t].origin.right;
    var a, b := g[l].value, g[r].value;
    LastOperandGrad(g, grads, t, d);
    forall i: nat, j: nat | i < Rows(b) && j < Cols(b) {
      TransposedTimes(a, d, i, j);
    }
    if l !in Ancestors(g, r) {
      FirstOperandGrad(g, grads, t, d);
      forall i: nat, j: nat | i < Rows(a) && j < Cols(a) {
        TimesTransposed(d, b, i, j);
      }
    }
  }

  /** A leaf, or a sum (which has no arm in the explicit-deltas path), takes
      the deltas and passes nothing on: every other gradient keeps its value. */
  lemma {:induction false} StopsAtLeafOrSum(g: seq<Tensor>, grads: seq<Array>, t: nat, d: Array)
    requires WellFormed(g) && t < |g| && d.shape == g[t].value.shape && |grads| == |g|
    requires g[t].origin.Leaf? || g[t].origin.SumOf?
    ensures After(g, grads, t, d) == grads[t := d]
  {
    NoOperandTrace(g, grads, t, d);
  }

  /** The seedless path on `sui_sum(x)` leaves x's gradient all ones. */
  lemma {:induction false} SeedlessGivesOnes(g: seq<Tensor>, grads: seq<Array>, t: nat)
    requires WellFormed(g) && t < |g| && |grads| == |g| && g[t].origin.SumOf?
    ensures var s := g[t].origin.source;
      s < |g| && After(g, grads, s, Ones(g[s].value.shape))[s] == Ones(g[s].value.shape)
  {
    assert WellFormedAt(g, t);
  }

  /** Seedless `backward()` from `sui_sum(add(a, a))` for a leaf a: a ends
      with ones, the gradient of one of the two terms, and not twos. */
  lemma {:induction false} SeedlessSumOfDoubled(g: seq<Tensor>, grads: seq<Array>, t: nat, i: nat)
    requires WellFormed(g) && t < |g| && |grads| == |g| && g[t].origin.SumOf?
    requires var s := g[t].origin.source;
      && s < |g| && g[s].origin.AddOf? && g[s].origin.left == g[s].origin.right
      && g[s].origin.left < s && g[g[s].origin.left].origin.Leaf?
    ensures var s := g[t].origin.source; var a := g[s].origin.left;
      a < s &&
      var after := After(g, grads, s, Ones(g[s].value.shape));
      && after[a] == Ones(g[a].value.shape)
      && (i < |after[a].data| ==> after[a].data[i] == 1)
  {
    assert WellFormedAt(g, t);
    var s := g[t].origin.source;
    assert WellFormedAt(g, s);
    AddPassesDeltas(g, grads, s, Ones(g[s].value.shape));
  }

  /** Seedless `backward()` from `sui_sum(multiply(a, b))` for two different
      leaves: a's gradient is b's value and b's is a's. */
  lemma {:induction false} SeedlessSumOfProduct(g: seq<Tensor>, grads: seq<Array>, t: nat)
    requires WellFormed(g) && t < |g| && |grads| == |g| && g[t].origin.SumOf?
    requires var s := g[t].origin.source;
      && s < |g| && g[s].origin.MultiplyOf? && g[s].origin.left < s && g[s].origin.right < s
      && g[g[s].origin.left].origin.Leaf? && g[g[s].origin.right].origin.Leaf?
      && g[s].origin.left != g[s].origin.right
    ensures var s := g[t].origin.source; var a, b := g[s].origin.left, g[s].origin.right;
      var after := After(g, grads, s, Ones(g[s].value.shape));
      after[a] == g[b].value && after[b] == g[a].value
  {
    assert WellFormedAt(g, t);
    var s := g[t].origin.source;
    assert WellFormedAt(g, s);
    var a, b := g[s].origin.left, g[s].origin.right;
    var ones := Ones(g[s].value.shape);
    assert Ancestors(g, b) == {b};
    MultiplySwapsValues(g, grads, s, ones);
    var after := After(g, grads, s, ones);
    assert after[a].data == g[b].value.data;
    assert after[b].data == g[a].value.data;
  }
}
