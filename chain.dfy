/** The chain rule that `backward()` computes. When the pass completes, a
    node's grad is its seeded grad plus, over every node the root reaches,
    that node's final grad times its local derivative with respect to the
    node: the adjoint equation of reverse-mode differentiation, whatever
    the order the rules fired in and however many consumers a node has. */
module ChainRule {
  import opened Failures
  import opened Autograd
  import opened Rules
  import opened RuleFacts
  import opened Topo
  import opened Engine
  import opened BackwardFacts

  /** The local derivative of node `v` with respect to node `u`: the factor
      `v`'s rule multiplies `out.grad` by before adding it into `u.grad`,
      summed over the operand positions `u` fills (so `x * x` has local
      derivative `2 * x.data` with respect to `x`). A power rule that raises
      contributes nothing, since a completed pass never fires one. */
  ghost function Partial(ops: seq<Op>, data: seq<real>, v: nat, u: nat): (d: real)
    requires ValidOps(ops) && |data| == |ops| && v < |ops|
    ensures u !in Children(ops[v]) ==> d == 0.0
  {
    assert OperandsBelow(ops[v], v);
    match ops[v]
    case Leaf => 0.0
    case AddOp(a, b) => (if a == u then 1.0 else 0.0) + (if b == u then 1.0 else 0.0)
    case MulOp(a, b) => (if a == u then data[b] else 0.0) + (if b == u then data[a] else 0.0)
    case PowOp(a, n) =>
      if a != u then 0.0
      else (match IntPow(data[a], n - 1) case Ok(p) => n as real * p case Err(_) => 0.0)
    case SigmoidOp(a) => if a == u then data[v] * (1.0 - data[v]) else 0.0
    case LinearOp(a) => if a == u then 1.0 else 0.0
    case ReluOp(a) => if a == u && data[v] > 0.0 then 1.0 else 0.0
    case TanhOp(a, t) => if a == u then 1.0 - t * t else 0.0
  }

  /** A rule that does not raise adds `out.grad` times the local derivative
      to every node, and so nothing to a node that is not its operand. */
  lemma FireRuleAddsPartial(ops: seq<Op>, data: seq<real>, grad: seq<real>, v: nat, u: nat)
    requires Shaped(ops, data, grad) && v < |ops| && u < |ops| && !PowRuleRaises(ops, data, v)
    ensures FireRule(ops, data, grad, v).Ok?
    ensures FireRule(ops, data, grad, v).value[u] == grad[u] + Times(grad[v], Partial(ops, data, v, u))
  {
    if ops[v].AddOp? || ops[v].MulOp? {
      BinaryAddsPartial(ops, data, grad, v, u);
    } else if ops[v].PowOp? || ops[v].SigmoidOp? {
      CurvedAddsPartial(ops, data, grad, v, u);
    } else {
      FlatAddsPartial(ops, data, grad, v, u);
    }
  }

  lemma BinaryAddsPartial(ops: seq<Op>, data: seq<real>, grad: seq<real>, v: nat, u: nat)
    requires Shaped(ops, data, grad) && v < |ops| && u < |ops| && (ops[v].AddOp? || ops[v].MulOp?)
    ensures FireRule(ops, data, grad, v).Ok?
    ensures FireRule(ops, data, grad, v).value[u] == grad[u] + Times(grad[v], Partial(ops, data, v, u))
  {
    var r := FireRule(ops, data, grad, v).value;
    var g := grad[v];
    match ops[v]
    case AddOp(a, b) =>
      var x := if a == u then 1.0 else 0.0;
      var y := if b == u then 1.0 else 0.0;
      assert r[u] == grad[u] + g * x + g * y;
      Distribute(g, x, y);
    case MulOp(a, b) =>
      var x := if a == u then data[b] else 0.0;
      var y := if b == u then data[a] else 0.0;
      assert r[u] == grad[u] + x * g + y * g;
      Distribute(g, x, y);
  }

  lemma CurvedAddsPartial(ops: seq<Op>, data: seq<real>, grad: seq<real>, v: nat, u: nat)
    requires Shaped(ops, data, grad) && v < |ops| && u < |ops| && !PowRuleRaises(ops, data, v)
    requires ops[v].PowOp? || ops[v].SigmoidOp?
    ensures FireRule(ops, data, grad, v).Ok?
    ensures FireRule(ops, data, grad, v).value[u] == grad[u] + Times(grad[v], Partial(ops, data, v, u))
  {
    var r := FireRule(ops, data, grad, v).value;
    match ops[v]
    case PowOp(a, n) =>
      var p := IntPow(data[a], n - 1).value;
      UnaryAddsPartial(grad, a, u, Times(n as real, p), grad[v], r);
    case SigmoidOp(a) =>
      UnaryAddsPartial(grad, a, u, Times(data[v], 1.0 - data[v]), grad[v], r);
  }

  lemma FlatAddsPartial(ops: seq<Op>, data: seq<real>, grad: seq<real>, v: nat, u: nat)
    requires Shaped(ops, data, grad) && v < |ops| && u < |ops|
    requires ops[v].Leaf? || ops[v].LinearOp? || ops[v].ReluOp? || ops[v].TanhOp?
    ensures FireRule(ops, data, grad, v).Ok?
    ensures FireRule(ops, data, grad, v).value[u] == grad[u] + Times(grad[v], Partial(ops, data, v, u))
  {
    var r := FireRule(ops, data, grad, v).value;
    match ops[v]
    case Leaf =>
    case LinearOp(a) =>
      UnaryAddsPartial(grad, a, u, 1.0, grad[v], r);
    case ReluOp(a) =>
      UnaryAddsPartial(grad, a, u, if data[v] > 0.0 then 1.0 else 0.0, grad[v], r);
    case TanhOp(a, t) =>
      UnaryAddsPartial(grad, a, u, 1.0 - Times(t, t), grad[v], r);
  }

  lemma Distribute(g: real, x: real, y: real)
    ensures g * (x + y) == g * x + g * y == x * g + y * g
  {
  }

  /** A rule that adds `c * out.grad` into operand `a`. */
  lemma UnaryAddsPartial(grad: seq<real>, a: nat, u: nat, c: real, g: real, r: seq<real>)
    requires a < |grad| && u < |grad| && r == Bump(grad, a, Times(c, g))
    ensures r[u] == grad[u] + g * (if a == u then c else 0.0)
  {
  }

  /** Deleting the first node of a consumers-first order leaves one. */
  lemma ConsumersFirstTail(ops: seq<Op>, order: seq<nat>)
    requires ValidOps(ops) && ConsumersFirst(ops, order) && order != []
    ensures ConsumersFirst(ops, order[1..])
  {
    var rest := order[1..];
    forall i, c | 0 <= i < |rest| && rest[i] < |ops| && c in Children(ops[rest[i]]) && c in rest
      ensures c in rest[i + 1..]
    {
      assert rest[i] == order[i + 1];
      var j :| 0 <= j < |rest| && rest[j] == c;
      assert order[j + 1] == c;
      assert c in order && order[i + 1] < |ops| && c in Children(ops[order[i + 1]]);
      assert c in order[i + 2..];
      assert order[i + 2..] == rest[i + 1..];
    }
  }

  /** A square matrix over the arena: one row per consumer, one column per
      node. */
  ghost predicate Square(P: seq<seq<real>>, n: nat)
  {
    |P| == n && forall v :: 0 <= v < n ==> |P[v]| == n
  }

  /** The matrix of local derivatives, `P[v][u] == Partial(v, u)`. */
  ghost function Partials(ops: seq<Op>, data: seq<real>): (P: seq<seq<real>>)
    requires ValidOps(ops) && |data| == |ops|
    ensures Square(P, |ops|)
    ensures forall v, u :: 0 <= v < |ops| && 0 <= u < |ops| ==> P[v][u] == Partial(ops, data, v, u)
  {
    seq(|ops|, v requires 0 <= v < |ops| => seq(|ops|, u requires 0 <= u < |ops| => Partial(ops, data, v, u)))
  }

  /** The grad of `u` after node `v`'s rule fires; the starting grad if the
      rule raises. */
  ghost function FiredGrad(ops: seq<Op>, data: seq<real>, grad: seq<real>, v: nat, u: nat): (g: real)
    requires Shaped(ops, data, grad) && v < |ops| && u < |ops|
    ensures FireRule(ops, data, grad, v).Ok? ==> g == FireRule(ops, data, grad, v).value[u]
  {
    match FireRule(ops, data, grad, v)
    case Ok(after) => after[u]
    case Err(_) => grad[u]
  }

  /** Every rule that does not raise adds `out.grad * P[v][u]` into each node
      `u`, whatever the grads it starts from. */
  ghost predicate RulesAdd(ops: seq<Op>, data: seq<real>, P: seq<seq<real>>)
    requires ValidOps(ops) && |data| == |ops| && Square(P, |ops|)
  {
    forall grad: seq<real>, v: nat, u: nat ::
      Shaped(ops, data, grad) && v < |ops| && u < |ops| && !PowRuleRaises(ops, data, v) ==>
        FiredGrad(ops, data, grad, v, u) == grad[u] + Times(grad[v], P[v][u])
  }

  /** The rules add exactly their local derivatives. */
  lemma PartialsAreRules(ops: seq<Op>, data: seq<real>)
    requires ValidOps(ops) && |data| == |ops|
    ensures RulesAdd(ops, data, Partials(ops, data))
  {
    var P := Partials(ops, data);
    forall grad: seq<real>, v: nat, u: nat |
      Shaped(ops, data, grad) && v < |ops| && u < |ops| && !PowRuleRaises(ops, data, v)
      ensures FiredGrad(ops, data, grad, v, u) == grad[u] + Times(grad[v], P[v][u])
    {
      FireRuleAddsPartial(ops, data, grad, v, u);
    }
  }

  lemma RuleAdds(ops: seq<Op>, data: seq<real>, P: seq<seq<real>>, grad: seq<real>, v: nat, u: nat)
    requires Shaped(ops, data, grad) && v < |ops| && u < |ops| && FireRule(ops, data, grad, v).Ok?
    requires Square(P, |ops|) && RulesAdd(ops, data, P)
    ensures FireRule(ops, data, grad, v).value[u] == grad[u] + Times(grad[v], P[v][u])
  {
    assert FiredGrad(ops, data, grad, v, u) == grad[u] + Times(grad[v], P[v][u]);
  }

  /** What the rules in `order` add into `u`, each rule's `out.grad` taken
      from `grad` and its local derivatives from `P`. */
  ghost function Inflow(P: seq<seq<real>>, grad: seq<real>, order: seq<nat>, u: nat): real
    requires Square(P, |grad|) && u < |grad| && forall i :: 0 <= i < |order| ==> order[i] < |grad|
    decreases |order|
  {
    if order == [] then 0.0
    else Times(grad[order[0]], P[order[0]][u]) + Inflow(P, grad, order[1..], u)
  }

  lemma InflowCons(P: seq<seq<real>>, grad: seq<real>, order: seq<nat>, u: nat)
    requires Square(P, |grad|) && u < |grad| && forall i :: 0 <= i < |order| ==> order[i] < |grad|
    requires order != []
    ensures Inflow(P, grad, order, u) == Times(grad[order[0]], P[order[0]][u]) + Inflow(P, grad, order[1..], u)
  {
  }

  /** Firing the first rule of a completed sequence: it does not raise, it
      adds its contribution into `u`, and it leaves its own node alone. */
  lemma FirstRuleStep(ops: seq<Op>, data: seq<real>, P: seq<seq<real>>, grad: seq<real>, order: seq<nat>, u: nat)
    returns (g1: seq<real>)
    requires Shaped(ops, data, grad) && InArena(ops, order) && order != [] && u < |ops|
    requires Square(P, |ops|) && RulesAdd(ops, data, P)
    requires FireAll(ops, data, grad, order).outcome.Pass?
    ensures Shaped(ops, data, g1) && InArena(ops, order[1..])
    ensures FireAll(ops, data, grad, order) == FireAll(ops, data, g1, order[1..])
    ensures g1[u] == grad[u] + Times(grad[order[0]], P[order[0]][u])
    ensures g1[order[0]] == grad[order[0]]
  {
    var v := order[0];
    assert FireRule(ops, data, grad, v).Ok?;
    RuleAdds(ops, data, P, grad, v, u);
    g1 := FireRule(ops, data, grad, v).value;
    assert v !in Children(ops[v]);
  }

  /** Under consumers-first order the rules after the first never touch
      the first node's grad. */
  lemma FirstNodeKept(ops: seq<Op>, data: seq<real>, grad: seq<real>, order: seq<nat>)
    requires Shaped(ops, data, grad) && ConsumersFirst(ops, order) && order != []
    ensures InArena(ops, order[1..])
    ensures FireAll(ops, data, grad, order[1..]).grad[order[0]] == grad[order[0]]
  {
    var v, rest := order[0], order[1..];
    forall i | 0 <= i < |rest|
      ensures v !in Children(ops[rest[i]])
    {
      NotOperandOfLater(ops, order, 0, i + 1);
    }
    FireAllKeeps(ops, data, grad, rest, v);
  }

  lemma Rearrange(fu: real, g1u: real, gu: real, gv: real, fv: real, p: real, restIn: real, allIn: real)
    requires fu == g1u + restIn && g1u == gu + Times(gv, p) && fv == gv && allIn == Times(fv, p) + restIn
    ensures fu == gu + allIn
  {
  }

  /** Firing a consumers-first sequence without a raise leaves each grad at
      its starting value plus what every fired rule adds into it, where each
      rule uses its own node's final grad. */
  lemma {:induction false} FireAllChainRule(ops: seq<Op>, data: seq<real>, P: seq<seq<real>>, grad: seq<real>, order: seq<nat>, u: nat)
    requires Shaped(ops, data, grad) && ConsumersFirst(ops, order) && u < |ops|
    requires Square(P, |ops|) && RulesAdd(ops, data, P)
    requires FireAll(ops, data, grad, order).outcome.Pass?
    ensures var f := FireAll(ops, data, grad, order).grad;
      f[u] == grad[u] + Inflow(P, f, order, u)
    decreases |order|
  {
    if order != [] {
      var rest := order[1..];
      var g1 := FirstRuleStep(ops, data, P, grad, order, u);
      ConsumersFirstTail(ops, order);
      FireAllChainRule(ops, data, P, g1, rest, u);
      FirstNodeKept(ops, data, g1, order);
      var f := FireAll(ops, data, g1, rest).grad;
      InflowCons(P, f, order, u);
      Rearrange(f[u], g1[u], grad[u], grad[order[0]], f[order[0]], P[order[0]][u],
        Inflow(P, f, rest, u), Inflow(P, f, order, u));
    }
  }

  /** Over the nodes below `n` that are in `nodes`: their grad times their
      local derivative with respect to `u`. */
  ghost function ChainSum(P: seq<seq<real>>, grad: seq<real>, nodes: set<nat>, u: nat, n: nat): real
    requires Square(P, |grad|) && u < |grad| && n <= |grad|
  {
    if n == 0 then 0.0 else
      var term := if n - 1 in nodes then Times(grad[n - 1], P[n - 1][u]) else 0.0;
      ChainSum(P, grad, nodes, u, n - 1) + term
  }

  lemma {:induction false} ChainSumEmpty(P: seq<seq<real>>, grad: seq<real>, u: nat, n: nat)
    requires Square(P, |grad|) && u < |grad| && n <= |grad|
    ensures ChainSum(P, grad, {}, u, n) == 0.0
  {
    if n > 0 {
      ChainSumEmpty(P, grad, u, n - 1);
    }
  }

  /** Taking one node out of the set takes its term out of the sum. */
  lemma {:induction false} ChainSumRemove(P: seq<seq<real>>, grad: seq<real>, nodes: set<nat>, x: nat, u: nat, n: nat)
    requires Square(P, |grad|) && u < |grad| && n <= |grad| && x < n && x in nodes
    ensures ChainSum(P, grad, nodes, u, n) == ChainSum(P, grad, nodes - {x}, u, n) + Times(grad[x], P[x][u])
  {
    if x < n - 1 {
      ChainSumRemove(P, grad, nodes, x, u, n - 1);
    } else {
      ChainSumSame(P, grad, nodes, nodes - {x}, u, n - 1);
    }
  }

  /** Sets that agree below `n` give the same sum. */
  lemma {:induction false} ChainSumSame(P: seq<seq<real>>, grad: seq<real>, s: set<nat>, t: set<nat>, u: nat, n: nat)
    requires Square(P, |grad|) && u < |grad| && n <= |grad|
    requires forall v :: v < n ==> (v in s <==> v in t)
    ensures ChainSum(P, grad, s, u, n) == ChainSum(P, grad, t, u, n)
  {
    if n > 0 {
      ChainSumSame(P, grad, s, t, u, n - 1);
    }
  }

  /** No node at or below `u` consumes `u`, so those terms vanish. */
  lemma {:induction false} ChainSumBelowVanishes(ops: seq<Op>, data: seq<real>, grad: seq<real>, nodes: set<nat>, u: nat, n: nat)
    requires Shaped(ops, data, grad) && u < |ops| && n <= u + 1
    ensures ChainSum(Partials(ops, data), grad, nodes, u, n) == 0.0
  {
    if n > 0 {
      assert u !in Children(ops[n - 1]);
      ChainSumBelowVanishes(ops, data, grad, nodes, u, n - 1);
    }
  }

  /** The members of a sequence. */
  ghost function Members(s: seq<nat>): set<nat>
  {
    set x | x in s
  }

  /** Summing along a sequence of distinct nodes is summing over its
      members in index order. */
  lemma {:induction false} InflowIsChainSum(P: seq<seq<real>>, grad: seq<real>, order: seq<nat>, u: nat)
    requires Square(P, |grad|) && u < |grad| && forall i :: 0 <= i < |order| ==> order[i] < |grad|
    requires forall i, j :: 0 <= i < j < |order| ==> order[i] != order[j]
    ensures Inflow(P, grad, order, u) == ChainSum(P, grad, Members(order), u, |grad|)
    decreases |order|
  {
    if order == [] {
      assert Members(order) == {};
      ChainSumEmpty(P, grad, u, |grad|);
    } else {
      MembersTail(order);
      InflowIsChainSum(P, grad, order[1..], u);
      ChainSumRemove(P, grad, Members(order), order[0], u, |grad|);
    }
  }

  lemma MembersTail(order: seq<nat>)
    requires order != [] && forall i, j :: 0 <= i < j < |order| ==> order[i] != order[j]
    ensures Members(order[1..]) == Members(order) - {order[0]}
  {
    var rest := order[1..];
    forall x
      ensures x in Members(rest) <==> x in Members(order) && x != order[0]
    {
      if x in rest {
        var j :| 0 <= j < |rest| && rest[j] == x;
        assert order[j + 1] == x;
      }
      if x in order && x != order[0] {
        var j :| 0 <= j < |order| && order[j] == x;
        assert rest[j - 1] == x;
      }
    }
  }

  /** The nodes the root reaches. */
  ghost function Reached(ops: seq<Op>, root: nat): set<nat>
    requires ValidOps(ops) && root < |ops|
  {
    set v | 0 <= v < |ops| && Reaches(ops, root, v)
  }

  /** The adjoint equation: after a completed `root.backward()`, each node's
      grad is what it held before (1 for the root, which is overwritten) plus
      the sum, over every node `v` the root reaches, of `v.grad` times the
      local derivative of `v` with respect to it. Contributions from several
      consumers, and from one consumer using a node twice, all add up. */
  lemma BackwardIsChainRule(ops: seq<Op>, data: seq<real>, grad: seq<real>, root: nat, u: nat)
    requires Shaped(ops, data, grad) && root < |ops| && u < |ops|
    requires BackwardSpec(ops, data, grad, root).outcome.Pass?
    ensures var f := BackwardSpec(ops, data, grad, root).grad;
      f[u] == (if u == root then 1.0 else grad[u]) + ChainSum(Partials(ops, data), f, Reached(ops, root), u, |ops|)
  {
    var order := Reverse(TopoOrder(ops, root));
    var P := Partials(ops, data);
    FiringOrderIsConsumersFirst(ops, root);
    PartialsAreRules(ops, data);
    var f := BackwardSpec(ops, data, grad, root).grad;
    FireAllChainRule(ops, data, P, grad[root := 1.0], order, u);
    InflowIsChainSum(P, f, order, u);
    ChainSumSame(P, f, Members(order), Reached(ops, root), u, |ops|);
  }

  /** A graph with no power node completes its pass. */
  lemma PassWithoutPower(ops: seq<Op>, data: seq<real>, grad: seq<real>, root: nat)
    requires Shaped(ops, data, grad) && root < |ops|
    requires forall v :: 0 <= v < |ops| ==> !ops[v].PowOp?
    ensures BackwardSpec(ops, data, grad, root).outcome == Pass
  {
    BackwardFailsIff(ops, data, grad, root);
  }
}
