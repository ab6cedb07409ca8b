/** The backward engine: `Tensor.backward`, with and without explicit deltas.

    `Trace` is the specification. It lists, in execution order, the
    assignments `grad := deltas` that the recursive calls make, with the
    deltas each one is passed. `Apply` replays such a list on a grad store. The
    caller-side `+=` into an operand's grad, made just before recursing into
    that operand, is not in the list: the recursive call starts by overwriting
    that same grad, so the `+=` never survives. `Graph.Backward` performs the
    `+=` exactly as `sui_torch.py` does, and its proof shows that they are
    superseded. */
module Backprop {
  import opened NdArrays
  import opened Tensors

  /** One assignment `grad := grad` to the tensor at `index`. */
  datatype Write = Write(index: nat, grad: Array)

  datatype BackwardError =
    | ShapeMismatch   // explicit deltas whose shape is not the tensor's
    | NotScalar       // seedless start from a tensor that is neither rank 0 nor one element
    | LeafStart       // seedless start from a leaf
    | Unimplemented   // seedless start from a tensor not produced by sui_sum

  datatype Outcome = Done | Failed(error: BackwardError)

  /** The write targets an existing tensor and has its shape. */
  predicate Fits(g: seq<Tensor>, w: Write)
  {
    w.index < |g| && w.grad.shape == g[w.index].value.shape
  }

  predicate AllFit(g: seq<Tensor>, ws: seq<Write>)
  {
    forall i :: 0 <= i < |ws| ==> Fits(g, ws[i])
  }

  predicate Below(ws: seq<Write>, bound: nat)
  {
    forall i :: 0 <= i < |ws| ==> ws[i].index < bound
  }

  /** A grad store for the arena: one gradient per tensor, of its value's shape. */
  predicate GradsFit(g: seq<Tensor>, grads: seq<Array>)
  {
    |grads| == |g| && forall k :: 0 <= k < |grads| ==> grads[k].shape == g[k].value.shape
  }

  /** The positions of a tensor's operands, as its back_op lists them. */
  function Operands(o: Origin): seq<nat>
  {
    match o
    case Leaf => []
    case SumOf(s) => [s]
    case AddOf(l, r) => [l, r]
    case SubtractOf(l, r) => [l, r]
    case MultiplyOf(l, r) => [l, r]
    case ReluOf(s) => [s]
    case DotProductOf(l, r) => [l, r]
  }

  /** The local derivative rules of the explicit-deltas path: what each operand
      of tensor t is passed when t is passed d, in the order `sui_torch.py`
      recurses into them. A leaf has no operands, and a sum has no arm in that
      path, so neither passes anything on. */
  function OperandGrads(g: seq<Tensor>, t: nat, d: Array): (ws: seq<Write>)
    requires WellFormed(g) && t < |g| && d.shape == g[t].value.shape
    ensures Below(ws, t) && AllFit(g, ws)
    ensures forall i :: 0 <= i < |ws| ==> ws[i].index in Operands(g[t].origin)
    ensures !g[t].origin.Leaf? && !g[t].origin.SumOf? ==> |ws| == |Operands(g[t].origin)|
  {
    assert WellFormedAt(g, t);
    match g[t].origin
    case Leaf => []
    case SumOf(_) => []
    case AddOf(l, r) => [Write(l, d), Write(r, d)]
    case SubtractOf(l, r) => [Write(l, d), Write(r, Negate(d))]
    case MultiplyOf(l, r) => [Write(l, Times(d, g[r].value)), Write(r, Times(d, g[l].value))]
    case ReluOf(s) => [Write(s, Times(d, PositiveMask(g[s].value)))]
    case DotProductOf(l, r) =>
      var toLeft, toRight := Dot(d, Transpose(g[r].value)), Dot(Transpose(g[l].value), d);
      assert toLeft.shape == g[l].value.shape && toRight.shape == g[r].value.shape;
      [Write(l, toLeft), Write(r, toRight)]
  }

  /** The local rules pass the operands on in the order `back_op` lists them:
      the i-th rule targets the i-th operand. */
  lemma OperandGradsInOrder(g: seq<Tensor>, t: nat, d: Array)
    requires WellFormed(g) && t < |g| && d.shape == g[t].value.shape
    requires !g[t].origin.Leaf? && !g[t].origin.SumOf?
    ensures var ws, ops := OperandGrads(g, t, d), Operands(g[t].origin);
      |ws| == |ops| && forall i :: 0 <= i < |ws| ==> ws[i].index == ops[i]
  {
  }

  /** The assignments to grad fields that `backward(d)` on tensor t makes, in
      order: t's own, then each operand's whole traversal in turn. */
  function Trace(g: seq<Tensor>, t: nat, d: Array): (ws: seq<Write>)
    requires WellFormed(g) && t < |g| && d.shape == g[t].value.shape
    ensures |ws| > 0 && ws[0] == Write(t, d)
    ensures Below(ws[1..], t) && AllFit(g, ws)
    decreases t, 1, 0
  {
    [Write(t, d)] + TraceEach(g, t, OperandGrads(g, t, d))
  }

  /** The traversals of the operands in ws, one after the other. */
  function TraceEach(g: seq<Tensor>, bound: nat, ws: seq<Write>): (r: seq<Write>)
    requires WellFormed(g) && Below(ws, bound) && AllFit(g, ws)
    ensures Below(r, bound) && AllFit(g, r)
    decreases bound, 0, |ws|
  {
    if ws == [] then []
    else
      var first := Trace(g, ws[0].index, ws[0].grad);
      var rest := TraceEach(g, bound, ws[1..]);
      assert Below(first, bound) by {
        assert first[0].index == ws[0].index;
        assert forall i :: 0 < i < |first| ==> first[i].index == first[1..][i - 1].index;
      }
      first + rest
  }

  /** Replays the assignments on a grad store. */
  function Apply(grads: seq<Array>, ws: seq<Write>): (r: seq<Array>)
    requires Below(ws, |grads|)
    ensures |r| == |grads|
    decreases |ws|
  {
    if ws == [] then grads else Apply(grads[ws[0].index := ws[0].grad], ws[1..])
  }

  // ---------------------------------------------------------------------
  // Replaying assignments

  lemma {:induction false} ApplyConcat(grads: seq<Array>, a: seq<Write>, b: seq<Write>)
    requires Below(a, |grads|) && Below(b, |grads|)
    ensures Below(a + b, |grads|)
    ensures Apply(grads, a + b) == Apply(Apply(grads, a), b)
    decreases |a|
  {
    assert Below(a + b, |grads|) by {
      forall i | 0 <= i < |a + b| ensures (a + b)[i].index < |grads| {
        if i < |a| { assert (a + b)[i] == a[i]; } else { assert (a + b)[i] == b[i - |a|]; }
      }
    }
    if a == [] {
      assert a + b == b;
    } else {
      var next := grads[a[0].index := a[0].grad];
      assert (a + b)[0] == a[0];
      assert (a + b)[1..] == a[1..] + b;
      ApplyConcat(next, a[1..], b);
      calc {
        Apply(grads, a + b);
        Apply(next, a[1..] + b);
        Apply(Apply(next, a[1..]), b);
        Apply(Apply(grads, a), b);
      }
    }
  }

  /** A gradient nobody assigns keeps its value. */
  lemma {:induction false} ApplyUntouched(grads: seq<Array>, ws: seq<Write>, k: nat)
    requires Below(ws, |grads|) && k < |grads|
    requires forall i :: 0 <= i < |ws| ==> ws[i].index != k
    ensures Apply(grads, ws)[k] == grads[k]
    decreases |ws|
  {
    if ws != [] {
      ApplyUntouched(grads[ws[0].index := ws[0].grad], ws[1..], k);
    }
  }

  /** Whatever a gradient held before, it is lost once some assignment targets it. */
  lemma {:induction false} ApplyOverwritten(grads: seq<Array>, ws: seq<Write>, k: nat, x: Array, i: nat)
    requires Below(ws, |grads|) && k < |grads|
    requires i < |ws| && ws[i].index == k
    ensures Apply(grads[k := x], ws) == Apply(grads, ws)
    decreases |ws|
  {
    var j, v := ws[0].index, ws[0].grad;
    if j == k {
      assert grads[k := x][j := v] == grads[j := v];
    } else {
      assert grads[k := x][j := v] == grads[j := v][k := x];
      ApplyOverwritten(grads[j := v], ws[1..], k, x, i - 1);
    }
  }

  /** Assignments of the right shapes keep a grad store fitting the arena. */
  lemma {:induction false} ApplyFits(g: seq<Tensor>, grads: seq<Array>, ws: seq<Write>)
    requires GradsFit(g, grads) && AllFit(g, ws)
    ensures Below(ws, |grads|) && GradsFit(g, Apply(grads, ws))
    decreases |ws|
  {
    if ws != [] {
      ApplyFits(g, grads[ws[0].index := ws[0].grad], ws[1..]);
    }
  }

  // ---------------------------------------------------------------------
  // Unfolding the traversal

  lemma {:induction false} TraceEachOne(g: seq<Tensor>, bound: nat, w: Write)
    requires WellFormed(g) && w.index < bound && Fits(g, w)
    ensures Below([w], bound) && AllFit(g, [w])
    ensures TraceEach(g, bound, [w]) == Trace(g, w.index, w.grad)
  {
    assert [w][1..] == [];
    assert TraceEach(g, bound, [w]) == Trace(g, w.index, w.grad) + [];
  }

  lemma {:induction false} TraceEachTwo(g: seq<Tensor>, bound: nat, w: Write, v: Write)
    requires WellFormed(g) && w.index < bound && v.index < bound && Fits(g, w) && Fits(g, v)
    ensures Below([w, v], bound) && AllFit(g, [w, v])
    ensures TraceEach(g, bound, [w, v]) == Trace(g, w.index, w.grad) + Trace(g, v.index, v.grad)
  {
    assert [w, v][1..] == [v];
    TraceEachOne(g, bound, v);
  }

  lemma {:induction false} TraceUnfold(g: seq<Tensor>, t: nat, d: Array)
    requires WellFormed(g) && t < |g| && d.shape == g[t].value.shape
    ensures var ws := OperandGrads(g, t, d);
      && (|ws| == 0 ==> Trace(g, t, d) == [Write(t, d)])
      && (|ws| == 1 ==> Trace(g, t, d) == [Write(t, d)] + Trace(g, ws[0].index, ws[0].grad))
      && (|ws| == 2 ==>
            Trace(g, t, d) == [Write(t, d)] + (Trace(g, ws[0].index, ws[0].grad) + Trace(g, ws[1].index, ws[1].grad)))
  {
    var ws := OperandGrads(g, t, d);
    if |ws| == 1 {
      assert ws == [ws[0]];
      TraceEachOne(g, t, ws[0]);
    } else if |ws| == 2 {
      assert ws == [ws[0], ws[1]];
      TraceEachTwo(g, t, ws[0], ws[1]);
    }
  }

  lemma {:induction false} ApplyHead(grads: seq<Array>, w: Write, rest: seq<Write>)
    requires w.index < |grads| && Below(rest, |grads|)
    ensures Below([w] + rest, |grads|)
    ensures Apply(grads, [w] + rest) == Apply(grads[w.index := w.grad], rest)
  {
    var all := [w] + rest;
    assert all[1..] == rest;
    assert forall i :: 0 < i < |all| ==> all[i] == rest[i - 1];
  }

  /** What `backward(d)` leaves when the operation has no operand to recurse into. */
  lemma {:induction false} NoOperandTrace(g: seq<Tensor>, grads: seq<Array>, t: nat, d: Array)
    requires WellFormed(g) && t < |g| && d.shape == g[t].value.shape && |grads| == |g|
    requires |OperandGrads(g, t, d)| == 0
    ensures Below(Trace(g, t, d), |grads|) && Apply(grads, Trace(g, t, d)) == grads[t := d]
  {
    TraceUnfold(g, t, d);
  }

  /** Assigning a gradient just before a traversal that starts by assigning
      it again changes nothing. */
  lemma {:induction false} SeededTrace(g: seq<Tensor>, grads: seq<Array>, s: nat, d: Array)
    requires WellFormed(g) && s < |g| && d.shape == g[s].value.shape && |grads| == |g|
    ensures Below(Trace(g, s, d), |grads|)
    ensures Apply(grads[s := d], Trace(g, s, d)) == Apply(grads, Trace(g, s, d))
  {
    OwnGradIsDeltas(g, grads, s, d);
    ApplyOverwritten(grads, Trace(g, s, d), s, d, 0);
  }

  /** The effect on the grad store of two recursions into operands l and r,
      after the caller-side `+=` into both: the sums are lost. */
  lemma {:induction false} TwoOperandSteps(grads: seq<Array>, l: nat, x: Array, r: nat, y: Array, a: seq<Write>, b: seq<Write>)
    requires l < |grads| && r < |grads| && Below(a, |grads|) && Below(b, |grads|)
    requires |a| > 0 && a[0].index == l && |b| > 0 && b[0].index == r
    ensures Below(a + b, |grads|)
    ensures Apply(Apply(grads[l := x][r := y], a), b) == Apply(grads, a + b)
  {
    ApplyConcat(grads[l := x][r := y], a, b);
    assert (a + b)[|a|] == b[0];
    ApplyOverwritten(grads[l := x], a + b, r, y, |a|);
    ApplyOverwritten(grads, a + b, l, x, 0);
  }

  // ---------------------------------------------------------------------
  // What a traversal leaves behind

  /** However the traversal runs, the starting tensor ends with exactly the
      deltas it was passed: the assignment is an overwrite, and nothing below
      it assigns that tensor again. */
  lemma {:induction false} OwnGradIsDeltas(g: seq<Tensor>, grads: seq<Array>, t: nat, d: Array)
    requires WellFormed(g) && t < |g| && d.shape == g[t].value.shape && |grads| == |g|
    ensures Below(Trace(g, t, d), |grads|)
    ensures Apply(grads, Trace(g, t, d))[t] == d
  {
    var ws := Trace(g, t, d);
    assert Below(ws, |grads|) by {
      assert forall i :: 0 < i < |ws| ==> ws[i].index == ws[1..][i - 1].index;
    }
    ApplyUntouched(grads[t := d], ws[1..], t);
  }

  /** The tensors a tensor was computed from, itself included. */
  function Ancestors(g: seq<Tensor>, t: nat): (a: set<nat>)
    requires WellFormed(g) && t < |g|
    ensures t in a && forall k :: k in a ==> k <= t
    decreases t
  {
    assert WellFormedAt(g, t);
    var ops := Operands(g[t].origin);
    {t} + (if |ops| > 0 then Ancestors(g, ops[0]) else {})
        + (if |ops| > 1 then Ancestors(g, ops[1]) else {})
  }

  /** An operand's ancestors are among the tensor's own. */
  lemma {:induction false} OperandAncestors(g: seq<Tensor>, t: nat, k: nat)
    requires WellFormed(g) && t < |g| && k in Operands(g[t].origin)
    ensures k < t && Ancestors(g, k) <= Ancestors(g, t)
  {
    assert WellFormedAt(g, t);
  }

  /** Every assignment in ws targets a tensor in `within`. */
  predicate TargetsWithin(ws: seq<Write>, within: set<nat>)
  {
    forall i :: 0 <= i < |ws| ==> ws[i].index in within
  }

  lemma {:induction false} TargetsWithinConcat(a: seq<Write>, b: seq<Write>, within: set<nat>)
    requires TargetsWithin(a, within) && TargetsWithin(b, within)
    ensures TargetsWithin(a + b, within)
  {
    forall i | 0 <= i < |a + b| ensures (a + b)[i].index in within {
      if i >= |a| { assert (a + b)[i] == b[i - |a|]; }
    }
  }

  lemma {:induction false} TraceWithinAncestors(g: seq<Tensor>, t: nat, d: Array)
    requires WellFormed(g) && t < |g| && d.shape == g[t].value.shape
    ensures TargetsWithin(Trace(g, t, d), Ancestors(g, t))
    decreases t, 1, 0
  {
    var ws := OperandGrads(g, t, d);
    forall i | 0 <= i < |ws| ensures Ancestors(g, ws[i].index) <= Ancestors(g, t) {
      OperandAncestors(g, t, ws[i].index);
    }
    TraceEachWithin(g, t, ws, Ancestors(g, t));
    TargetsWithinConcat([Write(t, d)], TraceEach(g, t, ws), Ancestors(g, t));
  }

  lemma {:induction false} TraceEachWithin(g: seq<Tensor>, bound: nat, ws: seq<Write>, within: set<nat>)
    requires WellFormed(g) && Below(ws, bound) && AllFit(g, ws)
    requires forall i :: 0 <= i < |ws| ==> Ancestors(g, ws[i].index) <= within
    ensures TargetsWithin(TraceEach(g, bound, ws), within)
    decreases bound, 0, |ws|
  {
    if ws != [] {
      var first := Trace(g, ws[0].index, ws[0].grad);
      TraceWithinAncestors(g, ws[0].index, ws[0].grad);
      assert TargetsWithin(first, within) by {
        assert Ancestors(g, ws[0].index) <= within;
      }
      var tail := ws[1..];
      assert forall i :: 0 <= i < |tail| ==> tail[i] == ws[i + 1];
      TraceEachWithin(g, bound, tail, within);
      TargetsWithinConcat(first, TraceEach(g, bound, tail), within);
    }
  }

  /** Backward never touches a tensor the starting one was not computed from. */
  lemma {:induction false} OutsideAncestorsUnchanged(g: seq<Tensor>, grads: seq<Array>, t: nat, d: Array, k: nat)
    requires WellFormed(g) && t < |g| && d.shape == g[t].value.shape && |grads| == |g|
    requires k < |g| && k !in Ancestors(g, t)
    ensures Below(Trace(g, t, d), |grads|)
    ensures Apply(grads, Trace(g, t, d))[k] == grads[k]
  {
    TraceWithinAncestors(g, t, d);
    ApplyUntouched(grads, Trace(g, t, d), k);
  }

  // ---------------------------------------------------------------------
  // The grad store and the two entry points of backward

  /** The tensors of one computation and their mutable gradients. */
  class Graph {
    var nodes: seq<Tensor>
    var grads: seq<Array>

    ghost predicate Valid()
      reads this
    {
      WellFormed(nodes) && GradsFit(nodes, grads)
    }

    constructor ()
      ensures Valid() && nodes == [] && grads == []
    {
      nodes := [];
      grads := [];
    }

    /** `Tensor.__init__`: the new tensor keeps its value and back_op and
        starts with a zero gradient of its value's shape. */
    method Push(t: Tensor) returns (index: nat)
      requires Valid() && WellFormed(nodes + [t])
      modifies this
      ensures Valid()
      ensures index == |old(nodes)| && nodes == old(nodes) + [t]
      ensures grads == old(grads) + [InitialGrad(t)]
    {
      index := |nodes|;
      nodes := nodes + [t];
      grads := grads + [InitialGrad(t)];
    }

    /** `backward(deltas)`. */
    method Backward(t: nat, deltas: Array) returns (res: Outcome)
      requires Valid() && t < |nodes|
      modifies this`grads
      ensures Valid()
      ensures res == Done <==> deltas.shape == nodes[t].value.shape
      ensures res != Done ==> res == Failed(ShapeMismatch) && grads == old(grads)
      ensures res == Done ==> grads == Apply(old(grads), Trace(nodes, t, deltas))
      ensures res == Done ==> grads[t] == deltas
      ensures res == Done && (nodes[t].origin.Leaf? || nodes[t].origin.SumOf?) ==>
        grads == old(grads)[t := deltas]
      ensures res == Done ==> forall k :: 0 <= k < |nodes| && k !in Ancestors(nodes, t) ==> grads[k] == old(grads)[k]
      ensures nodes == old(nodes)
      decreases t, 1, 0
    {
      if deltas.shape != nodes[t].value.shape {
        return Failed(ShapeMismatch);
      }
      ghost var start := grads;
      grads := grads[t := deltas];
      var local := LocalGrads(t, deltas);
      PropagateToOperands(t, deltas, local);
      ApplyHead(start, Write(t, deltas), Trace(nodes, t, deltas)[1..]);
      assert [Write(t, deltas)] + Trace(nodes, t, deltas)[1..] == Trace(nodes, t, deltas);
      OwnGradIsDeltas(nodes, start, t, deltas);
      forall k | 0 <= k < |nodes| && k !in Ancestors(nodes, t) {
        OutsideAncestorsUnchanged(nodes, start, t, deltas, k);
      }
      res := Done;
    }

    /** The local gradient for each operand of t, computed as each arm of the
        match on the operation's tag in `backward(deltas)` does. This is not a
        second definition of the rules: `OperandGrads` is the one
        specification. The method keeps the arms' own intermediate steps,
        `np.multiply(np.ones_like(...), deltas)` in `add` and the `relu_grad`
        mask in `relu`, and proves that they compute those rules. */
    method LocalGrads(t: nat, deltas: Array) returns (local: seq<Write>)
      requires Valid() && t < |nodes| && deltas.shape == nodes[t].value.shape
      ensures local == OperandGrads(nodes, t, deltas)
    {
      assert WellFormedAt(nodes, t);
      match nodes[t].origin {
        case Leaf =>
          local := [];
        case SumOf(_) =>
          local := [];
        case AddOf(l, r) =>
          var partial := Times(Ones(nodes[t].value.shape), deltas);
          OnesTimes(deltas);
          local := [Write(l, partial), Write(r, partial)];
        case SubtractOf(l, r) =>
          local := [Write(l, deltas), Write(r, Negate(deltas))];
        case MultiplyOf(l, r) =>
          local := [Write(l, Times(deltas, nodes[r].value)), Write(r, Times(deltas, nodes[l].value))];
        case ReluOf(s) =>
          var reluGrad := PositiveMask(nodes[s].value);
          local := [Write(s, Times(deltas, reluGrad))];
        case DotProductOf(l, r) =>
          local := [Write(l, Dot(deltas, Transpose(nodes[r].value))), Write(r, Dot(Transpose(nodes[l].value), deltas))];
      }
    }

    /** The tail of `backward(deltas)` once t's own gradient is assigned: `+=`
        the local gradient into each operand, then recurse into each in turn. */
    method PropagateToOperands(t: nat, deltas: Array, local: seq<Write>)
      requires Valid() && t < |nodes| && deltas.shape == nodes[t].value.shape
      requires local == OperandGrads(nodes, t, deltas)
      modifies this`grads
      ensures Valid()
      ensures Below(Trace(nodes, t, deltas)[1..], |grads|)
      ensures grads == Apply(old(grads), Trace(nodes, t, deltas)[1..])
      decreases t, 0, 1
    {
      TraceUnfold(nodes, t, deltas);
      if |local| == 0 {
      } else if |local| == 1 {
        PropagateToSource(local[0].index, local[0].grad);
      } else {
        PropagateToBoth(local[0].index, local[0].grad, local[1].index, local[1].grad);
      }
    }

    /** The one-operand arm of `backward(deltas)`: `+=` the local gradient
        into the source, then recurse into it. */
    method PropagateToSource(s: nat, toSource: Array)
      requires Valid() && s < |nodes| && toSource.shape == nodes[s].value.shape
      modifies this`grads
      ensures Valid()
      ensures Below(Trace(nodes, s, toSource), |grads|)
      ensures grads == Apply(old(grads), Trace(nodes, s, toSource))
      decreases s + 1, 0, 0
    {
      ghost var start := grads;
      grads := grads[s := Plus(grads[s], toSource)];
      ApplyOverwritten(start, Trace(nodes, s, toSource), s, grads[s], 0);
      var sourceDone := Backward(s, toSource);
    }

    /** The two-operand arms of `backward(deltas)`: `+=` the local gradient
        into each operand, then recurse into the left and the right operand. */
    method PropagateToBoth(l: nat, toLeft: Array, r: nat, toRight: Array)
      requires Valid() && l < |nodes| && r < |nodes|
      requires toLeft.shape == nodes[l].value.shape && toRight.shape == nodes[r].value.shape
      modifies this`grads
      ensures Valid()
      ensures Below(Trace(nodes, l, toLeft) + Trace(nodes, r, toRight), |grads|)
      ensures grads == Apply(old(grads), Trace(nodes, l, toLeft) + Trace(nodes, r, toRight))
      decreases if l < r then r + 1 else l + 1, 0, 0
    {
      ghost var start := grads;
      grads := grads[l := Plus(grads[l], toLeft)];
      ghost var afterLeft := grads;
      grads := grads[r := Plus(grads[r], toRight)];
      var leftDone := Backward(l, toLeft);
      var rightDone := Backward(r, toRight);
      TwoOperandSteps(start, l, afterLeft[l], r, Plus(afterLeft[r], toRight),
                      Trace(nodes, l, toLeft), Trace(nodes, r, toRight));
    }

    /** `backward()` with no deltas: only a sum can seed a traversal. */
    method BackwardFromScalar(t: nat) returns (res: Outcome)
      requires Valid() && t < |nodes|
      modifies this`grads
      ensures Valid()
      ensures res == Failed(NotScalar) <==> !IsScalarShape(Shape(nodes[t]))
      ensures res == Failed(LeafStart) <==> IsScalarShape(Shape(nodes[t])) && nodes[t].origin.Leaf?
      ensures res == Failed(Unimplemented) <==>
        IsScalarShape(Shape(nodes[t])) && !nodes[t].origin.Leaf? && !nodes[t].origin.SumOf?
      ensures res == Done <==> nodes[t].origin.SumOf?
      ensures res.Failed? ==> grads == old(grads)
      ensures res == Done ==>
        var s := nodes[t].origin.source;
        s < |nodes| && grads == Apply(old(grads), Trace(nodes, s, Ones(nodes[s].value.shape)))
      ensures res == Done ==> grads[t] == old(grads)[t]
      ensures nodes == old(nodes)
    {
      assert WellFormedAt(nodes, t);
      if Shape(nodes[t]) != [] && Prod(Shape(nodes[t])) != 1 {
        return Failed(NotScalar);
      }
      if nodes[t].origin.Leaf? {
        return Failed(LeafStart);
      }
      match nodes[t].origin {
        case SumOf(s) =>
          ghost var start := grads;
          grads := grads[s := Ones(nodes[s].value.shape)];
          SeededTrace(nodes, start, s, grads[s]);
          if nodes[s].origin.Leaf? {
            NoOperandTrace(nodes, start, s, grads[s]);
          } else {
            var newDeltas := grads[s];
            var sourceDone := Backward(s, newDeltas);
          }
          OutsideAncestorsUnchanged(nodes, start, s, Ones(nodes[s].value.shape), t);
          res := Done;
        case _ =>
          res := Failed(Unimplemented);
      }
    }
  }

  /** The seedless path accepts a tensor whose shape is rank 0 or holds one element. */
  predicate IsScalarShape(shape: seq<nat>)
  {
    shape == [] || Prod(shape) == 1
  }
}
