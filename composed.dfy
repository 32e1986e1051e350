/** Graphs in which a node feeds several consumers, or operations are
    chained, built through the tape; their gradients follow from the
    adjoint equation that `backward()` is proved to satisfy. */
module Composed {
  import opened Failures
  import opened Autograd
  import opened Rules
  import opened Engine
  import opened BackwardFacts
  import opened ChainRule

  /** The adjoint equation at `u` for the grads `f`, with seed `seed`. */
  ghost predicate AdjointAt(ops: seq<Op>, data: seq<real>, f: seq<real>, nodes: set<nat>, u: nat, seed: real)
    requires ValidOps(ops) && |data| == |ops| && |f| == |ops| && u < |ops|
  {
    f[u] == seed + ChainSum(Partials(ops, data), f, nodes, u, |ops|)
  }

  /** The adjoint equations of a pass from `root` over grads that started at
      zero: seed 1 at the root, 0 everywhere else. */
  ghost predicate Adjoints(ops: seq<Op>, data: seq<real>, f: seq<real>, nodes: set<nat>, root: nat)
  {
    ValidOps(ops) && |data| == |ops| && |f| == |ops| && root < |ops| &&
    AdjointAt(ops, data, f, nodes, root, 1.0) &&
    forall u :: 0 <= u < |ops| && u != root ==> AdjointAt(ops, data, f, nodes, u, 0.0)
  }

  /** On a freshly built graph (all grads zero) with no power node the pass
      completes and its grads `f` satisfy the adjoint equations. */
  lemma FreshAdjoint(ops: seq<Op>, data: seq<real>, g: seq<real>, root: nat) returns (f: seq<real>)
    requires Shaped(ops, data, g) && root < |ops|
    requires forall v :: 0 <= v < |ops| ==> !ops[v].PowOp? && g[v] == 0.0
    ensures BackwardSpec(ops, data, g, root) == Run(f, Pass)
    ensures Adjoints(ops, data, f, Reached(ops, root), root)
  {
    PassWithoutPower(ops, data, g, root);
    f := BackwardSpec(ops, data, g, root).grad;
    BackwardIsChainRule(ops, data, g, root, root);
    forall u | 0 <= u < |ops| && u != root
      ensures AdjointAt(ops, data, f, Reached(ops, root), u, 0.0)
    {
      BackwardIsChainRule(ops, data, g, root, u);
    }
  }

  /** The root of a graph whose last node is the root gets grad 1: nothing
      consumes it. */
  lemma RootGrad(ops: seq<Op>, data: seq<real>, f: seq<real>, nodes: set<nat>)
    requires |ops| > 0 && Adjoints(ops, data, f, nodes, |ops| - 1)
    ensures f[|ops| - 1] == 1.0
  {
    ChainSumBelowVanishes(ops, data, f, nodes, |ops| - 1, |ops|);
  }

  // The diamond `(a * b) + a`: leaf `a` feeds both the product and the sum.

  ghost predicate IsDiamond(ops: seq<Op>)
  {
    |ops| == 4 && ops[0] == Leaf && ops[1] == Leaf && ops[2] == MulOp(0, 1) && ops[3] == AddOp(2, 0)
  }

  lemma DiamondShape(ops: seq<Op>)
    requires IsDiamond(ops)
    ensures ValidOps(ops) && 2 in Reached(ops, 3) && 3 in Reached(ops, 3)
    ensures forall v :: 0 <= v < |ops| ==> !ops[v].PowOp?
  {
    assert Reaches(ops, 2, 2) && 2 in Children(ops[3]);
  }

  /** The product gets the root's grad; `a` collects `b.data` from the
      product and 1 from the sum, `b` only `a.data` from the product. */
  lemma DiamondSolve(ops: seq<Op>, data: seq<real>, f: seq<real>)
    requires IsDiamond(ops) && Adjoints(ops, data, f, Reached(ops, 3), 3)
    ensures f[0] == data[1] + 1.0 && f[1] == data[0]
  {
    DiamondShape(ops);
    var P, nodes := Partials(ops, data), Reached(ops, 3);
    RootGrad(ops, data, f, nodes);
    assert AdjointAt(ops, data, f, nodes, 2, 0.0);
    ChainSumBelowVanishes(ops, data, f, nodes, 2, 3);
    assert P[3][2] == 1.0;
    assert f[2] == 1.0;
    assert AdjointAt(ops, data, f, nodes, 0, 0.0);
    assert P[1][0] == 0.0 && P[2][0] == data[1] && P[3][0] == 1.0;
    ChainSumBelowVanishes(ops, data, f, nodes, 0, 1);
    assert ChainSum(P, f, nodes, 0, 2) == 0.0;
    assert ChainSum(P, f, nodes, 0, 3) == Times(f[2], data[1]) == data[1];
    assert ChainSum(P, f, nodes, 0, 4) == data[1] + Times(f[3], 1.0);
    assert AdjointAt(ops, data, f, nodes, 1, 0.0);
    assert P[2][1] == data[0] && P[3][1] == 0.0;
    ChainSumBelowVanishes(ops, data, f, nodes, 1, 2);
    assert ChainSum(P, f, nodes, 1, 3) == Times(f[2], data[0]) == data[0];
    assert ChainSum(P, f, nodes, 1, 4) == data[0];
  }

  /** From `(a * b) + a` on fresh grads the pass completes with
      `a.grad == b.data + 1` and `b.grad == a.data`. */
  lemma DiamondPass(ops: seq<Op>, data: seq<real>, g: seq<real>)
    requires IsDiamond(ops) && Shaped(ops, data, g) && forall i :: 0 <= i < 4 ==> g[i] == 0.0
    ensures var r := BackwardSpec(ops, data, g, 3);
      r.outcome == Pass && r.grad[0] == data[1] + 1.0 && r.grad[1] == data[0]
  {
    DiamondShape(ops);
    var f := FreshAdjoint(ops, data, g, 3);
    DiamondSolve(ops, data, f);
  }

  /** `out = a * b + a` for two leaves: `a.grad` is `b.data + 1`, the sum of
      what reaches it through its two consumers, and `b.grad` is `a.data`. */
  method DiamondGrads(x: real, y: real) returns (gradA: real, gradB: real)
    ensures gradA == y + 1.0 && gradB == x
  {
    var t := new Tape();
    var a := t.NewLeaf(x);
    var b := t.NewLeaf(y);
    var p := t.Mul(a, Node(b));
    var out := t.Add(p, Node(a));
    ghost var ops, data, g := t.ops, t.data, t.grad;
    assert IsDiamond(ops) && forall i :: 0 <= i < 4 ==> g[i] == 0.0;
    DiamondPass(ops, data, g);
    var outcome := t.Backward(out);
    gradA, gradB := t.grad[a], t.grad[b];
  }

  // The chain `(a * b).tanh()`: two operations, one after the other.

  ghost predicate IsTanhChain(ops: seq<Op>)
  {
    |ops| == 4 && ops[0] == Leaf && ops[1] == Leaf && ops[2] == MulOp(0, 1) && ops[3].TanhOp? && ops[3].a == 2
  }

  lemma TanhChainShape(ops: seq<Op>)
    requires IsTanhChain(ops)
    ensures ValidOps(ops) && 2 in Reached(ops, 3) && 3 in Reached(ops, 3)
    ensures forall v :: 0 <= v < |ops| ==> !ops[v].PowOp?
  {
    assert Reaches(ops, 2, 2) && 2 in Children(ops[3]);
  }

  /** The product gets `1 - t^2` from the tanh; each leaf gets that times the
      other leaf's data. */
  lemma TanhChainSolve(ops: seq<Op>, data: seq<real>, f: seq<real>)
    requires IsTanhChain(ops) && Adjoints(ops, data, f, Reached(ops, 3), 3)
    ensures f[0] == Times(1.0 - Times(ops[3].t, ops[3].t), data[1])
    ensures f[1] == Times(1.0 - Times(ops[3].t, ops[3].t), data[0])
  {
    TanhChainShape(ops);
    var P, nodes := Partials(ops, data), Reached(ops, 3);
    RootGrad(ops, data, f, nodes);
    assert AdjointAt(ops, data, f, nodes, 2, 0.0);
    ChainSumBelowVanishes(ops, data, f, nodes, 2, 3);
    assert P[3][2] == 1.0 - Times(ops[3].t, ops[3].t);
    assert f[2] == 1.0 - Times(ops[3].t, ops[3].t);
    assert AdjointAt(ops, data, f, nodes, 0, 0.0);
    assert P[1][0] == 0.0 && P[2][0] == data[1] && P[3][0] == 0.0;
    ChainSumBelowVanishes(ops, data, f, nodes, 0, 1);
    assert ChainSum(P, f, nodes, 0, 2) == 0.0;
    assert ChainSum(P, f, nodes, 0, 3) == Times(f[2], data[1]);
    assert ChainSum(P, f, nodes, 0, 4) == Times(f[2], data[1]);
    assert AdjointAt(ops, data, f, nodes, 1, 0.0);
    assert P[2][1] == data[0] && P[3][1] == 0.0;
    ChainSumBelowVanishes(ops, data, f, nodes, 1, 2);
    assert ChainSum(P, f, nodes, 1, 3) == Times(f[2], data[0]);
    assert ChainSum(P, f, nodes, 1, 4) == Times(f[2], data[0]);
  }

  /** From `(a * b).tanh()` on fresh grads the pass completes with
      `a.grad == (1 - t^2) * b.data` and `b.grad == (1 - t^2) * a.data`. */
  lemma TanhChainPass(ops: seq<Op>, data: seq<real>, g: seq<real>)
    requires IsTanhChain(ops) && Shaped(ops, data, g) && forall i :: 0 <= i < 4 ==> g[i] == 0.0
    ensures var r := BackwardSpec(ops, data, g, 3);
      r.outcome == Pass &&
      r.grad[0] == Times(1.0 - Times(ops[3].t, ops[3].t), data[1]) &&
      r.grad[1] == Times(1.0 - Times(ops[3].t, ops[3].t), data[0])
  {
    TanhChainShape(ops);
    var f := FreshAdjoint(ops, data, g, 3);
    TanhChainSolve(ops, data, f);
  }

  /** `out = (x * 3).tanh()`: `x.grad` is `3 * (1 - t^2)` for the output `t`,
      the tanh rule's factor carried back through the product. */
  method TanhOfTripleGrad(x: real, exp: real -> real) returns (t: real, gradX: real)
    requires PositiveExp(exp)
    ensures t == (exp(2.0 * (x * 3.0)) - 1.0) / (exp(2.0 * (x * 3.0)) + 1.0)
    ensures gradX == Times(1.0 - Times(t, t), 3.0)
  {
    var tape := new Tape();
    var a := tape.NewLeaf(x);
    var p := tape.Mul(a, Const(3.0));
    var out := tape.Tanh(p, exp);
    t := tape.data[out];
    assert tape.data[p] == x * 3.0;
    assert t == (exp(2.0 * (x * 3.0)) - 1.0) / (exp(2.0 * (x * 3.0)) + 1.0);
    ghost var ops, data, g := tape.ops, tape.data, tape.grad;
    assert IsTanhChain(ops) && ops[3].t == t && data[1] == 3.0 && forall i :: 0 <= i < 4 ==> g[i] == 0.0;
    TanhChainPass(ops, data, g);
    var outcome := tape.Backward(out);
    gradX := tape.grad[a];
  }

  // `a - b`, built as `a + (b * -1)`: three operations from two leaves.

  ghost predicate IsDifference(ops: seq<Op>)
  {
    |ops| == 5 && ops[0] == Leaf && ops[1] == Leaf && ops[2] == Leaf && ops[3] == MulOp(1, 2) && ops[4] == AddOp(0, 3)
  }

  lemma DifferenceShape(ops: seq<Op>)
    requires IsDifference(ops)
    ensures ValidOps(ops) && 3 in Reached(ops, 4) && 4 in Reached(ops, 4)
    ensures forall v :: 0 <= v < |ops| ==> !ops[v].PowOp?
  {
    assert Reaches(ops, 3, 3) && 3 in Children(ops[4]);
  }

  /** The sum passes 1 to `a` and to the product; the product passes the
      constant's data to `b`. */
  lemma DifferenceSolve(ops: seq<Op>, data: seq<real>, f: seq<real>)
    requires IsDifference(ops) && Adjoints(ops, data, f, Reached(ops, 4), 4)
    ensures f[0] == 1.0 && f[1] == data[2]
  {
    DifferenceShape(ops);
    var P, nodes := Partials(ops, data), Reached(ops, 4);
    RootGrad(ops, data, f, nodes);
    assert AdjointAt(ops, data, f, nodes, 3, 0.0);
    ChainSumBelowVanishes(ops, data, f, nodes, 3, 4);
    assert P[4][3] == 1.0;
    assert f[3] == 1.0;
    assert AdjointAt(ops, data, f, nodes, 0, 0.0);
    assert P[1][0] == 0.0 && P[2][0] == 0.0 && P[3][0] == 0.0 && P[4][0] == 1.0;
    ChainSumBelowVanishes(ops, data, f, nodes, 0, 1);
    assert ChainSum(P, f, nodes, 0, 2) == 0.0;
    assert ChainSum(P, f, nodes, 0, 3) == 0.0;
    assert ChainSum(P, f, nodes, 0, 4) == 0.0;
    assert ChainSum(P, f, nodes, 0, 5) == Times(f[4], 1.0);
    assert AdjointAt(ops, data, f, nodes, 1, 0.0);
    assert P[2][1] == 0.0 && P[3][1] == data[2] && P[4][1] == 0.0;
    ChainSumBelowVanishes(ops, data, f, nodes, 1, 2);
    assert ChainSum(P, f, nodes, 1, 3) == 0.0;
    assert ChainSum(P, f, nodes, 1, 4) == Times(f[3], data[2]);
    assert ChainSum(P, f, nodes, 1, 5) == data[2];
  }

  /** From `a + (b * -1)` on fresh grads the pass completes with
      `a.grad == 1` and `b.grad` the constant's data. */
  lemma DifferencePass(ops: seq<Op>, data: seq<real>, g: seq<real>)
    requires IsDifference(ops) && Shaped(ops, data, g) && forall i :: 0 <= i < 5 ==> g[i] == 0.0
    ensures var r := BackwardSpec(ops, data, g, 4);
      r.outcome == Pass && r.grad[0] == 1.0 && r.grad[1] == data[2]
  {
    DifferenceShape(ops);
    var f := FreshAdjoint(ops, data, g, 4);
    DifferenceSolve(ops, data, f);
  }

  /** `out = a - b` for two leaves: `a.grad` is 1 and `b.grad` is -1. */
  method DifferenceGrads(x: real, y: real) returns (diff: real, gradA: real, gradB: real)
    ensures diff == x - y && gradA == 1.0 && gradB == -1.0
  {
    var t := new Tape();
    var a := t.NewLeaf(x);
    var b := t.NewLeaf(y);
    var out := t.Sub(a, Node(b));
    diff := t.data[out];
    ghost var ops, data, g := t.ops, t.data, t.grad;
    assert IsDifference(ops) && data[2] == -1.0 && forall i :: 0 <= i < 5 ==> g[i] == 0.0;
    DifferencePass(ops, data, g);
    var outcome := t.Backward(out);
    gradA, gradB := t.grad[a], t.grad[b];
  }
}
