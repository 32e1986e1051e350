/** Small graphs built and differentiated through the tape, with the
    gradients the chain rule gives for them. Each scenario is a method that
    builds the graph with the tape's operators and calls `backward`; the
    pass it runs is worked out on plain sequences by the lemma beside it. */
module Scenarios {
  import opened Failures
  import opened Autograd
  import opened Rules
  import opened Engine
  import opened RuleFacts
  import opened BackwardFacts

  /** The pass over one operation whose operands are all leaves, stored as
      the last node: the operation's rule fired once on the seeded grads. */
  lemma OneOpPass(ops: seq<Op>, data: seq<real>, g: seq<real>)
    requires Shaped(ops, data, g) && |ops| >= 2
    requires forall i :: 0 <= i < |ops| - 1 ==> ops[i] == Leaf
    ensures var root := |ops| - 1;
      BackwardSpec(ops, data, g, root) ==
      match FireRule(ops, data, g[root := 1.0], root)
      case Ok(g') => Run(g', Pass)
      case Err(e) => Run(g[root := 1.0], Fail(e))
  {
    var root := |ops| - 1;
    forall c | c in Children(ops[root])
      ensures c < |ops| && ops[c] == Leaf
    {
    }
    BackwardOneOp(ops, data, g, root);
  }

  /** Leaves 0 and 1 feeding node 2. */
  ghost predicate TwoLeavesThen(ops: seq<Op>, data: seq<real>, g: seq<real>, op: Op)
  {
    Shaped(ops, data, g) && |ops| == 3 && ops[0] == Leaf && ops[1] == Leaf && ops[2] == op
  }

  /** The pass from `a + b`: each leaf's grad grows by the seed 1. */
  lemma AddPass(ops: seq<Op>, data: seq<real>, g: seq<real>)
    requires TwoLeavesThen(ops, data, g, AddOp(0, 1))
    ensures var r := BackwardSpec(ops, data, g, 2);
      r.outcome == Pass && |r.grad| == 3 && r.grad[0] == g[0] + 1.0 && r.grad[1] == g[1] + 1.0 && r.grad[2] == 1.0
  {
    OneOpPass(ops, data, g);
    var seeded := g[2 := 1.0];
    AddRuleAccumulates(ops, data, seeded, 2);
    assert 2 !in Children(ops[2]);
  }

  /** `out = a + b` for two leaves: `out.data` is the sum, and after
      `out.backward()` both leaves hold grad 1. */
  method AddGrads(x: real, y: real) returns (sum: real, gradA: real, gradB: real)
    ensures sum == x + y && gradA == 1.0 && gradB == 1.0
  {
    var t := new Tape();
    var a := t.NewLeaf(x);
    var b := t.NewLeaf(y);
    var out := t.Add(a, Node(b));
    sum := t.data[out];
    ghost var ops, data, g := t.ops, t.data, t.grad;
    assert ops[0] == Leaf && ops[1] == Leaf && g[0] == 0.0 && g[1] == 0.0;
    AddPass(ops, data, g);
    var outcome := t.Backward(out);
    gradA, gradB := t.grad[a], t.grad[b];
  }

  /** The pass from `a * b`: each leaf's grad grows by the other's data. */
  lemma MulPass(ops: seq<Op>, data: seq<real>, g: seq<real>)
    requires TwoLeavesThen(ops, data, g, MulOp(0, 1))
    ensures var r := BackwardSpec(ops, data, g, 2);
      r.outcome == Pass && r.grad[0] == g[0] + data[1] && r.grad[1] == g[1] + data[0]
  {
    OneOpPass(ops, data, g);
    MulRuleAccumulates(ops, data, g[2 := 1.0], 2);
  }

  /** `out = a * b` for two leaves: after `out.backward()`, `a.grad` is
      `b.data` and `b.grad` is `a.data`. */
  method MulGrads(x: real, y: real) returns (gradA: real, gradB: real)
    ensures gradA == y && gradB == x
  {
    var t := new Tape();
    var a := t.NewLeaf(x);
    var b := t.NewLeaf(y);
    var out := t.Mul(a, Node(b));
    ghost var ops, data, g := t.ops, t.data, t.grad;
    assert ops[0] == Leaf && ops[1] == Leaf && g[0] == 0.0 && g[1] == 0.0;
    MulPass(ops, data, g);
    var outcome := t.Backward(out);
    gradA, gradB := t.grad[a], t.grad[b];
  }

  /** The pass from `a * a`: both updates of the rule land on `a`. */
  lemma SquarePass(ops: seq<Op>, data: seq<real>, g: seq<real>)
    requires Shaped(ops, data, g) && |ops| == 2 && ops[0] == Leaf && ops[1] == MulOp(0, 0)
    ensures var r := BackwardSpec(ops, data, g, 1);
      r.outcome == Pass && r.grad[0] == g[0] + 2.0 * data[0]
  {
    OneOpPass(ops, data, g);
    MulRuleAccumulates(ops, data, g[1 := 1.0], 1);
  }

  /** `out = a * a`: `a.grad` is `2 * a.data`, not `a.data`, because the
      rule accumulates into the same leaf twice. */
  method SquareGrad(x: real) returns (gradA: real)
    ensures gradA == 2.0 * x
  {
    var t := new Tape();
    var a := t.NewLeaf(x);
    var out := t.Mul(a, Node(a));
    ghost var ops, data, g := t.ops, t.data, t.grad;
    assert ops[0] == Leaf && g[0] == 0.0;
    SquarePass(ops, data, g);
    var outcome := t.Backward(out);
    gradA := t.grad[a];
  }

  /** The pass from `a.relu()`: the seed reaches `a` only when the output,
      and so the input, is positive. */
  lemma ReluPass(ops: seq<Op>, data: seq<real>, g: seq<real>)
    requires Shaped(ops, data, g) && |ops| == 2 && ops[0] == Leaf && ops[1] == ReluOp(0)
    requires data[1] == if data[0] < 0.0 then 0.0 else data[0]
    ensures var r := BackwardSpec(ops, data, g, 1);
      r.outcome == Pass && r.grad[0] == if data[0] > 0.0 then g[0] + 1.0 else g[0]
  {
    OneOpPass(ops, data, g);
    var seeded := g[1 := 1.0];
    assert seeded[0] == g[0] && seeded[1] == 1.0;
    GateRules(ops, data, seeded, 1);
  }

  /** `out = a.relu()`: `a.grad` is 1 for a positive input and 0 otherwise. */
  method ReluGrad(x: real) returns (gradA: real)
    ensures gradA == if x > 0.0 then 1.0 else 0.0
  {
    var t := new Tape();
    var a := t.NewLeaf(x);
    var out := t.Relu(a);
    ghost var ops, data, g := t.ops, t.data, t.grad;
    assert ops[0] == Leaf && g[0] == 0.0 && data[0] == x;
    ReluPass(ops, data, g);
    ghost var pass := BackwardSpec(ops, data, g, out);
    assert pass.grad[a] == if x > 0.0 then 1.0 else 0.0;
    var outcome := t.Backward(out);
    assert t.grad == pass.grad;
    gradA := t.grad[a];
  }

  /** `x ** 2` is `x * x`. */
  lemma SquarePower(x: real)
    ensures Power(x, 2) == x * x
  {
    assert Power(x, 1) == x;
  }

  /** The pass from `a ** 3`: the leaf's grad grows by `3 * a.data ** 2`. */
  lemma CubePass(ops: seq<Op>, data: seq<real>, g: seq<real>, x: real)
    requires Shaped(ops, data, g) && |ops| == 2 && ops[0] == Leaf && ops[1] == PowOp(0, 3)
    requires data[0] == x
    ensures var r := BackwardSpec(ops, data, g, 1);
      r.outcome == Pass && r.grad[0] == g[0] + 3.0 * (x * x)
  {
    OneOpPass(ops, data, g);
    var seeded := g[1 := 1.0];
    assert seeded[0] == g[0] && seeded[1] == 1.0;
    PowRuleDerivative(ops, data, seeded, 1);
    SquarePower(x);
  }

  /** `out = a ** 3`: `a.grad` is `3 * a.data ** 2`. */
  method CubeGrad(x: real) returns (gradA: real)
    ensures gradA == 3.0 * (x * x)
  {
    var t := new Tape();
    var a := t.NewLeaf(x);
    var r := t.Pow(a, IntPower(3));
    assert r.Ok?;
    ghost var ops, data, g := t.ops, t.data, t.grad;
    assert ops[0] == Leaf && g[0] == 0.0;
    CubePass(ops, data, g, x);
    var outcome := t.Backward(r.value);
    gradA := t.grad[a];
  }

  /** `Value(0) ** 0` builds a node with data 1, and its backward rule
      computes `0 * 0 ** -1`, which raises ZeroDivisionError; the pass
      stops with the grads as seeded. */
  method ZeroToZerothRaises() returns (forward: real, outcome: Outcome, gradA: real)
    ensures forward == 1.0 && outcome == Fail(ZeroDivisionError) && gradA == 0.0
  {
    var t := new Tape();
    var a := t.NewLeaf(0.0);
    var r := t.Pow(a, IntPower(0));
    assert r.Ok?;
    forward := t.data[r.value];
    assert PowRuleRaises(t.ops, t.data, 1);
    OneOpPass(t.ops, t.data, t.grad);
    outcome := t.Backward(r.value);
    gradA := t.grad[a];
  }

  /** `Value(0) ** -1` raises ZeroDivisionError in the forward pass and
      builds nothing. */
  method ZeroReciprocalRaises() returns (r: Result<nat>, nodes: nat)
    ensures r == Err(ZeroDivisionError) && nodes == 1
  {
    var t := new Tape();
    var a := t.NewLeaf(0.0);
    r := t.Pow(a, IntPower(-1));
    nodes := |t.ops|;
  }

  /** Two passes from `a + b` without zeroing in between: the second pass
      adds to the grads the first one left. */
  lemma AddTwicePass(ops: seq<Op>, data: seq<real>, g: seq<real>)
    requires TwoLeavesThen(ops, data, g, AddOp(0, 1))
    ensures var first := BackwardSpec(ops, data, g, 2);
      var r := BackwardSpec(ops, data, first.grad, 2);
      r.outcome == Pass && r.grad[0] == g[0] + 2.0 && r.grad[1] == g[1] + 2.0
  {
    AddPass(ops, data, g);
    AddPass(ops, data, BackwardSpec(ops, data, g, 2).grad);
  }

  /** Calling `out.backward()` twice on `a + b` leaves grad 2 on each leaf:
      gradients accumulate across passes unless they are zeroed. */
  method BackwardTwiceAccumulates(x: real, y: real) returns (gradA: real, gradB: real)
    ensures gradA == 2.0 && gradB == 2.0
  {
    var t := new Tape();
    var a := t.NewLeaf(x);
    var b := t.NewLeaf(y);
    var out := t.Add(a, Node(b));
    ghost var ops, data, g := t.ops, t.data, t.grad;
    assert ops[0] == Leaf && ops[1] == Leaf && g[0] == 0.0 && g[1] == 0.0;
    AddTwicePass(ops, data, g);
    var first := t.Backward(out);
    var second := t.Backward(out);
    gradA, gradB := t.grad[a], t.grad[b];
  }
}
