/** The local backward rules of Engine.py (the `_backward` closures) and the
    firing of a sequence of them, as functions from the arena's current
    `data` and `grad` to the new `grad`. */
module Rules {
  import opened Failures
  import opened Autograd

  /** `x ** n` for a natural exponent. */
  function Power(x: real, n: nat): (r: real)
    ensures x != 0.0 ==> r != 0.0
  {
    if n == 0 then 1.0 else x * Power(x, n - 1)
  }

  /** Python's `x ** n` for an integer exponent: zero to a negative power
      raises ZeroDivisionError. */
  function IntPow(x: real, n: int): (r: Result<real>)
    ensures r.Err? <==> n < 0 && x == 0.0
    ensures r.Err? ==> r.error == ZeroDivisionError
    ensures r.Ok? && n >= 0 ==> r.value == Power(x, n)
    ensures r.Ok? && n < 0 ==> r.value * Power(x, -n) == 1.0
  {
    if n >= 0 then Ok(Power(x, n))
    else if x == 0.0 then Err(ZeroDivisionError)
    else Ok(1.0 / Power(x, -n))
  }

  lemma Reciprocal(x: real)
    requires x != 0.0
    ensures IntPow(x, -1) == Ok(1.0 / x)
  {
    assert Power(x, 1) == x;
  }

  /** Data and grad agree in length with the arena. */
  ghost predicate Shaped(ops: seq<Op>, data: seq<real>, grad: seq<real>)
  {
    ValidOps(ops) && |data| == |ops| && |grad| == |ops|
  }

  /** A product of reals. The rules multiply through this function so that
      equal factors give equal products by congruence alone. */
  function Times(x: real, y: real): real
  {
    x * y
  }

  /** `grad[i] += d` */
  function Bump(grad: seq<real>, i: nat, d: real): (r: seq<real>)
    requires i < |grad|
    ensures |r| == |grad| && r[i] == grad[i] + d
    ensures forall u :: 0 <= u < |grad| && u != i ==> r[u] == grad[u]
  {
    grad[i := grad[i] + d]
  }

  /** The pow rule evaluates `a.data ** (n - 1)`, which raises when `a.data`
      is zero and `n - 1` is negative. */
  ghost predicate PowRuleRaises(ops: seq<Op>, data: seq<real>, v: nat)
    requires v < |ops|
  {
    ops[v].PowOp? && ops[v].a < |data| && data[ops[v].a] == 0.0 && ops[v].n <= 0
  }

  /** Node `v`'s backward rule: it reads `v`'s grad (`out.grad`) and adds the
      local chain-rule contribution into the grads of its operands. */
  function FireRule(ops: seq<Op>, data: seq<real>, grad: seq<real>, v: nat): (r: Result<seq<real>>)
    requires Shaped(ops, data, grad) && v < |ops|
    ensures r.Ok? ==> |r.value| == |grad|
    ensures r.Ok? ==> forall u :: 0 <= u < |grad| && u !in Children(ops[v]) ==> r.value[u] == grad[u]
    ensures r.Err? <==> PowRuleRaises(ops, data, v)
    ensures r.Err? ==> r.error == ZeroDivisionError
  {
    match ops[v]
    case Leaf => Ok(grad)
    case AddOp(a, b) => Ok(Bump(Bump(grad, a, grad[v]), b, grad[v]))
    case MulOp(a, b) => Ok(Bump(Bump(grad, a, Times(data[b], grad[v])), b, Times(data[a], grad[v])))
    case PowOp(a, n) =>
      (match IntPow(data[a], n - 1)
       case Ok(p) => Ok(Bump(grad, a, Times(Times(n as real, p), grad[v])))
       case Err(e) => Err(e))
    case SigmoidOp(a) => Ok(Bump(grad, a, Times(Times(data[v], 1.0 - data[v]), grad[v])))
    case LinearOp(a) => Ok(Bump(grad, a, Times(1.0, grad[v])))
    case ReluOp(a) => Ok(Bump(grad, a, Times(if data[v] > 0.0 then 1.0 else 0.0, grad[v])))
    case TanhOp(a, t) => Ok(Bump(grad, a, Times(1.0 - Times(t, t), grad[v])))
  }

  /** The grads after firing a sequence of rules, and whether a rule raised.
      A raising rule stops the sequence and leaves the grads as they were
      before it. */
  datatype Run = Run(grad: seq<real>, outcome: Outcome)

  ghost predicate InArena(ops: seq<Op>, order: seq<nat>)
  {
    forall i :: 0 <= i < |order| ==> order[i] < |ops|
  }

  function FireAll(ops: seq<Op>, data: seq<real>, grad: seq<real>, order: seq<nat>): (r: Run)
    requires Shaped(ops, data, grad) && InArena(ops, order)
    ensures |r.grad| == |grad|
    decreases |order|
  {
    if order == [] then Run(grad, Pass)
    else
      match FireRule(ops, data, grad, order[0])
      case Ok(g) => FireAll(ops, data, g, order[1..])
      case Err(e) => Run(grad, Fail(e))
  }
}

module RuleFacts {
  import opened Failures
  import opened Autograd
  import opened Rules

  /** A leaf's rule is the default no-op. */
  lemma LeafRuleIsNoOp(ops: seq<Op>, data: seq<real>, grad: seq<real>, v: nat)
    requires Shaped(ops, data, grad) && v < |ops| && ops[v] == Leaf
    ensures FireRule(ops, data, grad, v) == Ok(grad)
  {
  }

  /** The add rule adds `out.grad` to each operand; for `x + x` both updates
      land on `x`, which receives twice `out.grad`. */
  lemma AddRuleAccumulates(ops: seq<Op>, data: seq<real>, grad: seq<real>, v: nat)
    requires Shaped(ops, data, grad) && v < |ops| && ops[v].AddOp?
    ensures FireRule(ops, data, grad, v).Ok?
    ensures var r, a, b := FireRule(ops, data, grad, v).value, ops[v].a, ops[v].b;
      if a == b then r[a] == grad[a] + 2.0 * grad[v]
      else r[a] == grad[a] + grad[v] && r[b] == grad[b] + grad[v]
  {
    assert ops[v].a < v && ops[v].b < v;
  }

  /** The multiply rule adds the other operand's data times `out.grad`; for
      `x * x` the operand receives `2 * x.data * out.grad`. */
  lemma MulRuleAccumulates(ops: seq<Op>, data: seq<real>, grad: seq<real>, v: nat)
    requires Shaped(ops, data, grad) && v < |ops| && ops[v].MulOp?
    ensures FireRule(ops, data, grad, v).Ok?
    ensures var r, a, b := FireRule(ops, data, grad, v).value, ops[v].a, ops[v].b;
      if a == b then r[a] == grad[a] + 2.0 * data[a] * grad[v]
      else r[a] == grad[a] + data[b] * grad[v] && r[b] == grad[b] + data[a] * grad[v]
  {
    assert ops[v].a < v && ops[v].b < v;
  }

  /** For a positive exponent the pow rule adds `n * x ** (n - 1) * out.grad`. */
  lemma PowRuleDerivative(ops: seq<Op>, data: seq<real>, grad: seq<real>, v: nat)
    requires Shaped(ops, data, grad) && v < |ops| && ops[v].PowOp? && ops[v].n >= 1
    ensures FireRule(ops, data, grad, v).Ok?
    ensures var a, n := ops[v].a, ops[v].n;
      FireRule(ops, data, grad, v).value[a] == grad[a] + n as real * Power(data[a], n - 1) * grad[v]
  {
    var a, n := ops[v].a, ops[v].n;
    assert a < v;
    var p := Power(data[a], n - 1);
    assert IntPow(data[a], n - 1) == Ok(p);
    assert FireRule(ops, data, grad, v) == Ok(Bump(grad, a, Times(Times(n as real, p), grad[v])));
    assert Times(Times(n as real, p), grad[v]) == n as real * p * grad[v];
  }

  /** The relu rule passes `out.grad` when the output is positive and adds
      nothing at or below zero; the linear rule always passes it. */
  lemma GateRules(ops: seq<Op>, data: seq<real>, grad: seq<real>, v: nat)
    requires Shaped(ops, data, grad) && v < |ops| && (ops[v].ReluOp? || ops[v].LinearOp?)
    ensures FireRule(ops, data, grad, v).Ok?
    ensures var a := ops[v].a;
      FireRule(ops, data, grad, v).value[a] ==
        if ops[v].ReluOp? && data[v] <= 0.0 then grad[a] else grad[a] + grad[v]
  {
    assert ops[v].a < v;
  }

  /** The sigmoid rule adds `s * (1 - s) * out.grad` and reads no data but
      the output `s` itself. */
  lemma SigmoidRuleReadsOutput(ops: seq<Op>, data: seq<real>, data': seq<real>, grad: seq<real>, v: nat)
    requires Shaped(ops, data, grad) && |data'| == |data| && v < |ops| && ops[v].SigmoidOp?
    requires data'[v] == data[v]
    ensures FireRule(ops, data', grad, v) == FireRule(ops, data, grad, v)
    ensures var s, a := data[v], ops[v].a;
      FireRule(ops, data, grad, v).Ok? &&
      FireRule(ops, data, grad, v).value[a] == grad[a] + s * (1.0 - s) * grad[v]
  {
    assert ops[v].a < v;
  }

  /** The tanh rule adds `(1 - t * t) * out.grad` for the output `t` it
      captured when the node was built, whatever the data is when it fires. */
  lemma TanhRuleUsesCapturedOutput(ops: seq<Op>, data: seq<real>, data': seq<real>, grad: seq<real>, v: nat)
    requires Shaped(ops, data, grad) && |data'| == |data| && v < |ops| && ops[v].TanhOp?
    ensures FireRule(ops, data', grad, v) == FireRule(ops, data, grad, v)
    ensures var t, a := ops[v].t, ops[v].a;
      FireRule(ops, data, grad, v).Ok? &&
      FireRule(ops, data, grad, v).value[a] == grad[a] + (1.0 - t * t) * grad[v]
  {
    assert ops[v].a < v;
  }

  /** Firing rules never touches a node that is no operand of a fired node. */
  lemma {:induction false} FireAllKeeps(ops: seq<Op>, data: seq<real>, grad: seq<real>, order: seq<nat>, u: nat)
    requires Shaped(ops, data, grad) && InArena(ops, order) && u < |grad|
    requires forall i :: 0 <= i < |order| ==> u !in Children(ops[order[i]])
    ensures FireAll(ops, data, grad, order).grad[u] == grad[u]
    decreases |order|
  {
    if order != [] {
      match FireRule(ops, data, grad, order[0])
      case Ok(g) =>
        FireAllKeeps(ops, data, g, order[1..], u);
      case Err(_) =>
    }
  }

  /** Firing `s + t` is firing `s`, then, unless a rule of `s` raised, `t`. */
  lemma {:induction false} FireAllSplit(ops: seq<Op>, data: seq<real>, grad: seq<real>, s: seq<nat>, t: seq<nat>)
    requires Shaped(ops, data, grad) && InArena(ops, s) && InArena(ops, t)
    ensures InArena(ops, s + t)
    ensures var r := FireAll(ops, data, grad, s);
      FireAll(ops, data, grad, s + t) == if r.outcome.Pass? then FireAll(ops, data, r.grad, t) else r
    decreases |s|
  {
    if s == [] {
      assert s + t == t;
    } else {
      assert (s + t)[0] == s[0] && (s + t)[1..] == s[1..] + t;
      match FireRule(ops, data, grad, s[0])
      case Ok(g) =>
        FireAllSplit(ops, data, g, s[1..], t);
      case Err(_) =>
    }
  }

  lemma BumpCommutes(grad: seq<real>, i: nat, x: real, j: nat, y: real)
    requires i < |grad| && j < |grad|
    ensures Bump(Bump(grad, i, x), j, y) == Bump(Bump(grad, j, y), i, x)
  {
  }

  /** Raising a leaf's grad before a rule fires raises it by the same amount
      afterwards: rules add into grads and never overwrite them. */
  lemma FireRuleShiftsLeaf(ops: seq<Op>, data: seq<real>, grad: seq<real>, v: nat, u: nat, d: real)
    requires Shaped(ops, data, grad) && v < |ops| && u < |ops| && ops[u] == Leaf
    ensures var r := FireRule(ops, data, grad, v);
      FireRule(ops, data, Bump(grad, u, d), v) == if r.Ok? then Ok(Bump(r.value, u, d)) else r
  {
    if v != u {
      var g := grad[v];
      match ops[v]
      case AddOp(a, b) =>
        assert a < v && b < v && a in Children(ops[v]) && b in Children(ops[v]);
        BumpCommutes(grad, u, d, a, g);
        BumpCommutes(Bump(grad, a, g), u, d, b, g);
      case MulOp(a, b) =>
        assert a < v && b < v && a in Children(ops[v]) && b in Children(ops[v]);
        BumpCommutes(grad, u, d, a, Times(data[b], g));
        BumpCommutes(Bump(grad, a, Times(data[b], g)), u, d, b, Times(data[a], g));
      case PowOp(a, n) =>
        assert a < v && a in Children(ops[v]);
        if IntPow(data[a], n - 1).Ok? {
          BumpCommutes(grad, u, d, a, Times(Times(n as real, IntPow(data[a], n - 1).value), g));
        }
      case SigmoidOp(a) =>
        assert a < v && a in Children(ops[v]);
        BumpCommutes(grad, u, d, a, Times(Times(data[v], 1.0 - data[v]), g));
      case LinearOp(a) =>
        assert a < v && a in Children(ops[v]);
        BumpCommutes(grad, u, d, a, Times(1.0, g));
      case ReluOp(a) =>
        assert a < v && a in Children(ops[v]);
        BumpCommutes(grad, u, d, a, Times(if data[v] > 0.0 then 1.0 else 0.0, g));
      case TanhOp(a, t) =>
        assert a < v && a in Children(ops[v]);
        BumpCommutes(grad, u, d, a, Times(1.0 - Times(t, t), g));
      case Leaf =>
    }
  }

  /** The same for a whole sequence of rules. */
  lemma {:induction false} FireAllShiftsLeaf(ops: seq<Op>, data: seq<real>, grad: seq<real>, order: seq<nat>, u: nat, d: real)
    requires Shaped(ops, data, grad) && InArena(ops, order) && u < |ops| && ops[u] == Leaf
    ensures var r := FireAll(ops, data, grad, order);
      FireAll(ops, data, Bump(grad, u, d), order) == Run(Bump(r.grad, u, d), r.outcome)
    decreases |order|
  {
    if order != [] {
      FireRuleShiftsLeaf(ops, data, grad, order[0], u, d);
      match FireRule(ops, data, grad, order[0])
      case Ok(g) =>
        FireAllShiftsLeaf(ops, data, g, order[1..], u, d);
      case Err(_) =>
    }
  }

  /** Every operand of a rule in `order` that is itself in `order` comes after
      it: consumers fire before their producers. */
  ghost predicate ConsumersFirst(ops: seq<Op>, order: seq<nat>)
  {
    InArena(ops, order) &&
    (forall i, j :: 0 <= i < j < |order| ==> order[i] != order[j]) &&
    (forall i, c :: 0 <= i < |order| && order[i] < |ops| && c in Children(ops[order[i]]) && c in order ==>
       c in order[i + 1..])
  }

  /** Under consumers-first order, no rule at or after position `i` has the
      node at `i` as an operand. */
  lemma NotOperandOfLater(ops: seq<Op>, order: seq<nat>, i: nat, j: nat)
    requires ValidOps(ops) && ConsumersFirst(ops, order) && i <= j < |order|
    ensures order[i] !in Children(ops[order[j]])
  {
    if i < j {
      assert order[i] in order;
      assert forall m :: j + 1 <= m < |order| ==> order[m] != order[i];
      assert order[i] !in order[j + 1..];
    }
  }

  /** When rules fire consumers first, a node's grad is complete when its own
      rule fires: the rules after it never add to it. */
  lemma FiredGradIsFinal(ops: seq<Op>, data: seq<real>, grad: seq<real>, order: seq<nat>, k: nat)
    requires Shaped(ops, data, grad) && ConsumersFirst(ops, order) && k < |order|
    requires FireAll(ops, data, grad, order).outcome.Pass?
    ensures InArena(ops, order[..k])
    ensures FireAll(ops, data, grad, order[..k]).grad[order[k]] == FireAll(ops, data, grad, order).grad[order[k]]
  {
    var s, t := order[..k], order[k..];
    assert order == s + t;
    FireAllSplit(ops, data, grad, s, t);
    var r := FireAll(ops, data, grad, s);
    assert r.outcome.Pass?;
    forall i | 0 <= i < |t|
      ensures order[k] !in Children(ops[t[i]])
    {
      assert t[i] == order[k + i];
      NotOperandOfLater(ops, order, k, k + i);
    }
    FireAllKeeps(ops, data, r.grad, t, order[k]);
  }
}
