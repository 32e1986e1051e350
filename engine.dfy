/** The `Value` class of Engine.py as an arena: one `Tape` object holds the
    `data`, `grad` and producer record of every node, and a node is its
    index. The operators append nodes; `Backward` is `Value.backward`. */
module Engine {
  import opened Failures
  import opened Autograd
  import opened Rules
  import opened Topo

  /** The right-hand operand of a binary operator: a node, or a raw number
      that the operator first wraps as a fresh leaf. */
  datatype Operand = Node(index: nat) | Const(x: real)

  /** The exponent of `**`: an integer constant, or something that is not a
      number at all (which fails the operator's assertion). */
  datatype Exponent = IntPower(n: int) | NonNumeric

  predicate OperandIn(b: Operand, n: nat)
  {
    b.Node? ==> b.index < n
  }

  function OperandValue(data: seq<real>, b: Operand): real
    requires OperandIn(b, |data|)
  {
    match b
    case Node(i) => data[i]
    case Const(x) => x
  }

  /** `exp` stands for `math.exp`: the model only uses that it is positive. */
  ghost predicate PositiveExp(exp: real -> real)
  {
    forall x :: exp(x) > 0.0
  }

  /** The grads `backward()` leaves and whether a rule raised: the root's grad
      is overwritten with 1, then every rule fires once, in the reverse of
      the topological order. */
  ghost function BackwardSpec(ops: seq<Op>, data: seq<real>, grad: seq<real>, root: nat): (r: Run)
    requires Shaped(ops, data, grad) && root < |ops|
    ensures |r.grad| == |grad|
  {
    FireAll(ops, data, grad[root := 1.0], Reverse(TopoOrder(ops, root)))
  }

  lemma ReverseInArena(ops: seq<Op>, topo: seq<nat>, i: nat)
    requires InArena(ops, topo) && i <= |topo|
    ensures InArena(ops, Reverse(topo[..i]))
  {
  }

  /** Firing the reverse of `topo[..i]` first fires `topo[i - 1]`. */
  lemma FireReversedPrefix(ops: seq<Op>, data: seq<real>, grad: seq<real>, topo: seq<nat>, i: nat)
    requires Shaped(ops, data, grad) && InArena(ops, topo) && 0 < i <= |topo|
    ensures InArena(ops, Reverse(topo[..i])) && InArena(ops, Reverse(topo[..i - 1]))
    ensures FireAll(ops, data, grad, Reverse(topo[..i])) ==
      match FireRule(ops, data, grad, topo[i - 1])
      case Ok(g) => FireAll(ops, data, g, Reverse(topo[..i - 1]))
      case Err(e) => Run(grad, Fail(e))
  {
    var s := topo[..i];
    assert s[..|s| - 1] == topo[..i - 1];
    assert Reverse(s) == [topo[i - 1]] + Reverse(topo[..i - 1]);
  }

  class Tape {
    var data: seq<real>
    var grad: seq<real>
    var ops: seq<Op>

    ghost predicate Valid()
      reads this
    {
      Shaped(ops, data, grad)
    }

    /** Nothing allocated earlier changed. */
    ghost predicate Extends(data0: seq<real>, grad0: seq<real>, ops0: seq<Op>)
      reads this
    {
      data0 <= data && grad0 <= grad && ops0 <= ops
    }

    constructor ()
      ensures Valid() && data == [] && grad == [] && ops == []
    {
      data, grad, ops := [], [], [];
    }

    /** `Value(x, _children, _op)`: a new node with zero grad whose
        producers are the operands `op` names. */
    method Push(x: real, op: Op) returns (out: nat)
      requires Valid() && OperandsBelow(op, |ops|)
      modifies this
      ensures Valid()
      ensures out == old(|ops|)
      ensures data == old(data) + [x] && grad == old(grad) + [0.0] && ops == old(ops) + [op]
    {
      ValidOpsPush(ops, op);
      out := |ops|;
      data, grad, ops := data + [x], grad + [0.0], ops + [op];
    }

    /** `Value(x)`: a leaf, whose rule is the default no-op. */
    method NewLeaf(x: real) returns (out: nat)
      requires Valid()
      modifies this
      ensures Valid()
      ensures out == old(|ops|)
      ensures data == old(data) + [x] && grad == old(grad) + [0.0] && ops == old(ops) + [Leaf]
    {
      out := Push(x, Leaf);
    }

    /** `other if isinstance(other, Value) else Value(other)` */
    method Wrap(b: Operand) returns (i: nat)
      requires Valid() && OperandIn(b, |ops|)
      modifies this
      ensures Valid() && Extends(old(data), old(grad), old(ops))
      ensures b.Node? ==> i == b.index && data == old(data) && grad == old(grad) && ops == old(ops)
      ensures b.Const? ==> i == old(|ops|) && data == old(data) + [b.x] && grad == old(grad) + [0.0] && ops == old(ops) + [Leaf]
    {
      match b
      case Node(j) => i := j;
      case Const(x) => i := NewLeaf(x);
    }

    /** `a + b` */
    method Add(a: nat, b: Operand) returns (out: nat)
      requires Valid() && a < |ops| && OperandIn(b, |ops|)
      modifies this
      ensures Valid() && Extends(old(data), old(grad), old(ops))
      ensures |ops| == old(|ops|) + (if b.Const? then 2 else 1) && out == |ops| - 1
      ensures ops[out] == AddOp(a, if b.Node? then b.index else old(|ops|))
      ensures data[out] == data[a] + OperandValue(old(data), b) && grad[out] == 0.0
      ensures b.Const? ==> ops[out - 1] == Leaf && data[out - 1] == b.x && grad[out - 1] == 0.0
      ensures b.Node? ==>
        ops == old(ops) + [AddOp(a, b.index)] &&
        data == old(data) + [old(data)[a] + old(data)[b.index]] &&
        grad == old(grad) + [0.0]
      ensures b.Const? ==>
        ops == old(ops) + [Leaf, AddOp(a, old(|ops|))] &&
        data == old(data) + [b.x, old(data)[a] + b.x] &&
        grad == old(grad) + [0.0, 0.0]
    {
      var other := Wrap(b);
      out := Push(data[a] + data[other], AddOp(a, other));
    }

    /** `a * b` */
    method Mul(a: nat, b: Operand) returns (out: nat)
      requires Valid() && a < |ops| && OperandIn(b, |ops|)
      modifies this
      ensures Valid() && Extends(old(data), old(grad), old(ops))
      ensures |ops| == old(|ops|) + (if b.Const? then 2 else 1) && out == |ops| - 1
      ensures ops[out] == MulOp(a, if b.Node? then b.index else old(|ops|))
      ensures data[out] == data[a] * OperandValue(old(data), b) && grad[out] == 0.0
      ensures b.Const? ==> ops[out - 1] == Leaf && data[out - 1] == b.x && grad[out - 1] == 0.0
      ensures b.Node? ==>
        ops == old(ops) + [MulOp(a, b.index)] &&
        data == old(data) + [old(data)[a] * old(data)[b.index]] &&
        grad == old(grad) + [0.0]
      ensures b.Const? ==>
        ops == old(ops) + [Leaf, MulOp(a, old(|ops|))] &&
        data == old(data) + [b.x, old(data)[a] * b.x] &&
        grad == old(grad) + [0.0, 0.0]
    {
      ghost var va, vb := data[a], OperandValue(data, b);
      var other := Wrap(b);
      assert data[a] == va && data[other] == vb;
      var y := data[a] * data[other];
      assert y == va * vb;
      out := Push(y, MulOp(a, other));
      if b.Node? {
        assert y == old(data)[a] * old(data)[b.index];
      } else {
        assert y == old(data)[a] * b.x;
      }
    }

    /** `a ** e`. A non-numeric exponent fails the assertion, and zero to a
        negative power raises; either way no node is built. */
    method Pow(a: nat, e: Exponent) returns (r: Result<nat>)
      requires Valid() && a < |ops|
      modifies this
      ensures Valid() && Extends(old(data), old(grad), old(ops))
      ensures e.NonNumeric? ==> r == Err(AssertionError)
      ensures e.IntPower? ==> (r.Err? <==> e.n < 0 && data[a] == 0.0)
      ensures r.Err? ==> data == old(data) && grad == old(grad) && ops == old(ops)
      ensures r.Err? && e.IntPower? ==> r.error == ZeroDivisionError
      ensures r.Ok? ==> r.value == old(|ops|) && |ops| == old(|ops|) + 1
      ensures r.Ok? ==> ops[r.value] == PowOp(a, e.n) && grad[r.value] == 0.0
      ensures r.Ok? && e.n >= 0 ==> data[r.value] == Power(data[a], e.n)
      ensures r.Ok? && e.n < 0 ==> data[r.value] * Power(data[a], -e.n) == 1.0
      ensures r.Ok? ==> IntPow(old(data)[a], e.n) == Ok(data[r.value])
    {
      match e
      case NonNumeric =>
        r := Err(AssertionError);
      case IntPower(n) =>
        match IntPow(data[a], n)
        case Err(err) =>
          r := Err(err);
        case Ok(y) =>
          var out := Push(y, PowOp(a, n));
          r := Ok(out);
    }

    /** `a.sigmoid()`: `1 / (1 + exp(-a.data))`, strictly between 0 and 1. */
    method Sigmoid(a: nat, exp: real -> real) returns (out: nat)
      requires Valid() && a < |ops| && PositiveExp(exp)
      modifies this
      ensures Valid() && Extends(old(data), old(grad), old(ops))
      ensures out == old(|ops|) && |ops| == out + 1
      ensures ops[out] == SigmoidOp(a) && grad[out] == 0.0
      ensures data[out] == 1.0 / (1.0 + exp(-data[a]))
      ensures 0.0 < data[out] < 1.0
    {
      var expVal := exp(-data[a]);
      out := Push(1.0 / (1.0 + expVal), SigmoidOp(a));
    }

    /** `a.linear()`: the identity. */
    method Linear(a: nat) returns (out: nat)
      requires Valid() && a < |ops|
      modifies this
      ensures Valid() && Extends(old(data), old(grad), old(ops))
      ensures out == old(|ops|) && |ops| == out + 1
      ensures ops[out] == LinearOp(a) && grad[out] == 0.0
      ensures data[out] == data[a]
    {
      out := Push(data[a], LinearOp(a));
    }

    /** `a.relu()`: 0 below zero, the input otherwise. */
    method Relu(a: nat) returns (out: nat)
      requires Valid() && a < |ops|
      modifies this
      ensures Valid() && Extends(old(data), old(grad), old(ops))
      ensures out == old(|ops|) && |ops| == out + 1
      ensures ops[out] == ReluOp(a) && grad[out] == 0.0
      ensures data[out] == if data[a] < 0.0 then 0.0 else data[a]
      ensures data[out] >= 0.0 && data[out] >= data[a]
    {
      out := Push(if data[a] < 0.0 then 0.0 else data[a], ReluOp(a));
    }

    /** `a.tanh()`: `(exp(2x) - 1) / (exp(2x) + 1)`, strictly between -1 and 1;
        the rule keeps this value. */
    method Tanh(a: nat, exp: real -> real) returns (out: nat)
      requires Valid() && a < |ops| && PositiveExp(exp)
      modifies this
      ensures Valid() && Extends(old(data), old(grad), old(ops))
      ensures out == old(|ops|) && |ops| == out + 1
      ensures data[out] == (exp(2.0 * data[a]) - 1.0) / (exp(2.0 * data[a]) + 1.0)
      ensures ops[out] == TanhOp(a, data[out]) && grad[out] == 0.0
      ensures -1.0 < data[out] < 1.0
    {
      var x := data[a];
      var e2x := exp(2.0 * x);
      var t := (e2x - 1.0) / (e2x + 1.0);
      out := Push(t, TanhOp(a, t));
    }

    /** `-a`, which is `a * -1`: a leaf holding -1, then the product. */
    method Neg(a: nat) returns (out: nat)
      requires Valid() && a < |ops|
      modifies this
      ensures Valid() && out == old(|ops|) + 1
      ensures ops == old(ops) + [Leaf, MulOp(a, out - 1)]
      ensures data == old(data) + [-1.0, -old(data)[a]]
      ensures grad == old(grad) + [0.0, 0.0]
    {
      out := Mul(a, Const(-1.0));
    }

    /** `x + a` for a number `x`, which is `a + x`: `x` becomes a fresh leaf. */
    method Radd(a: nat, x: real) returns (out: nat)
      requires Valid() && a < |ops|
      modifies this
      ensures Valid() && out == old(|ops|) + 1
      ensures ops == old(ops) + [Leaf, AddOp(a, out - 1)]
      ensures data == old(data) + [x, old(data)[a] + x]
      ensures grad == old(grad) + [0.0, 0.0]
    {
      out := Add(a, Const(x));
    }

    /** `a - b`, which is `a + (-b)`: a node `b` is negated through `Neg`, a
        number is negated before it is wrapped. */
    method Sub(a: nat, b: Operand) returns (out: nat)
      requires Valid() && a < |ops| && OperandIn(b, |ops|)
      modifies this
      ensures Valid() && out == |ops| - 1
      ensures data[out] == old(data)[a] - OperandValue(old(data), b)
      ensures b.Node? ==> var n0, v := old(|ops|), old(data)[b.index];
        ops == old(ops) + [Leaf, MulOp(b.index, n0), AddOp(a, n0 + 1)] &&
        data == old(data) + [-1.0, -v, old(data)[a] - v] &&
        grad == old(grad) + [0.0, 0.0, 0.0]
      ensures b.Const? ==>
        ops == old(ops) + [Leaf, AddOp(a, old(|ops|))] &&
        data == old(data) + [-b.x, old(data)[a] - b.x] &&
        grad == old(grad) + [0.0, 0.0]
    {
      match b
      case Node(j) =>
        var negated := Neg(j);
        out := Add(a, Node(negated));
      case Const(x) =>
        out := Add(a, Const(-x));
    }

    /** `x - a` for a number `x`, which is `x + (-a)` and so `(-a) + x`. */
    method Rsub(a: nat, x: real) returns (out: nat)
      requires Valid() && a < |ops|
      modifies this
      ensures Valid() && out == old(|ops|) + 3
      ensures var n0, v := old(|ops|), old(data)[a];
        ops == old(ops) + [Leaf, MulOp(a, n0), Leaf, AddOp(n0 + 1, n0 + 2)] &&
        data == old(data) + [-1.0, -v, x, x - v]
      ensures grad == old(grad) + [0.0, 0.0, 0.0, 0.0]
    {
      ghost var n0, v := |ops|, data[a];
      var negated := Neg(a);
      out := Add(negated, Const(x));
      assert data[n0 + 1] == -v && data[out] == -v + x;
    }

    /** `x * a` for a number `x`, which is `a * x`: `x` becomes a fresh leaf. */
    method Rmul(a: nat, x: real) returns (out: nat)
      requires Valid() && a < |ops|
      modifies this
      ensures Valid() && out == old(|ops|) + 1
      ensures ops == old(ops) + [Leaf, MulOp(a, out - 1)]
      ensures data == old(data) + [x, old(data)[a] * x]
      ensures grad == old(grad) + [0.0, 0.0]
    {
      out := Mul(a, Const(x));
      assert data[out] == old(data)[a] * x;
      assert data == old(data) + [x, data[out]];
    }

    /** `a / b`, which is `a * b ** -1`: a node `b` gets a power node, a
        number is inverted before it is wrapped. A zero divisor raises
        before any node is built. */
    method Div(a: nat, b: Operand) returns (r: Result<nat>)
      requires Valid() && a < |ops| && OperandIn(b, |ops|)
      modifies this
      ensures Valid()
      ensures r.Err? <==> OperandValue(old(data), b) == 0.0
      ensures r.Err? ==> r.error == ZeroDivisionError && data == old(data) && grad == old(grad) && ops == old(ops)
      ensures r.Ok? ==> r.value == old(|ops|) + 1
      ensures r.Ok? ==> var v := OperandValue(old(data), b);
        v != 0.0 &&
        ops == old(ops) + [if b.Node? then PowOp(b.index, -1) else Leaf, MulOp(a, old(|ops|))] &&
        data == old(data) + [1.0 / v, old(data)[a] / v] &&
        grad == old(grad) + [0.0, 0.0]
    {
      match b
      case Node(j) =>
        var p := Pow(j, IntPower(-1));
        if p.Err? {
          return Err(p.error);
        }
        ghost var v, mid := old(data)[j], data;
        Reciprocal(v);
        assert mid == old(data) + [1.0 / v];
        var out := Mul(a, Node(p.value));
        assert data[a] == old(data)[a];
        Quotient(data[a], OperandValue(mid, Node(p.value)), old(data)[a], v);
        assert data[out] == old(data)[a] / v;
        assert data == mid + [old(data)[a] / v];
        r := Ok(out);
      case Const(x) =>
        if x == 0.0 {
          return Err(ZeroDivisionError);
        }
        var out := Mul(a, Const(1.0 / x));
        assert data[a] == old(data)[a];
        Quotient(data[a], OperandValue(old(data), Const(1.0 / x)), old(data)[a], x);
        assert data[out] == old(data)[a] / x;
        r := Ok(out);
    }

    /** Multiplying by the reciprocal is dividing. */
    static lemma Quotient(x: real, y: real, x': real, v: real)
      requires v != 0.0 && x == x' && y == 1.0 / v
      ensures x * y == x' / v
    {
    }

    /** `x / a` for a number `x`, which is `x * a ** -1` and so
        `a ** -1 * x`; zero `a` raises before any node is built. */
    method Rtruediv(a: nat, x: real) returns (r: Result<nat>)
      requires Valid() && a < |ops|
      modifies this
      ensures Valid()
      ensures r.Err? <==> old(data)[a] == 0.0
      ensures r.Err? ==> r.error == ZeroDivisionError && data == old(data) && grad == old(grad) && ops == old(ops)
      ensures r.Ok? ==> var n0, v := old(|ops|), old(data)[a];
        r.value == n0 + 2 && v != 0.0 &&
        ops == old(ops) + [PowOp(a, -1), Leaf, MulOp(n0, n0 + 1)] &&
        data == old(data) + [1.0 / v, x, x / v] &&
        grad == old(grad) + [0.0, 0.0, 0.0]
    {
      var p := Pow(a, IntPower(-1));
      if p.Err? {
        return Err(p.error);
      }
      Reciprocal(old(data)[a]);
      ghost var v, d := old(data)[a], data[p.value];
      assert d == 1.0 / v;
      var out := Mul(p.value, Const(x));
      assert data[out] == d * x == x / v;
      r := Ok(out);
    }

    /** `root.backward()`: order the nodes reachable from `root`
        topologically, overwrite the root's grad with 1, then fire every
        node's rule once, from the root back to the leaves. Data and graph
        are left alone; a raising rule stops the pass. */
    method Backward(root: nat) returns (outcome: Outcome)
      requires Valid() && root < |ops|
      modifies this
      ensures Valid() && data == old(data) && ops == old(ops)
      ensures Run(grad, outcome) == BackwardSpec(ops, data, old(grad), root)
    {
      var topo := TopoSort(ops, root);
      assert topo[..|topo|] == topo;
      ReverseInArena(ops, topo, |topo|);
      var g := grad[root := 1.0];
      ghost var seeded := g;
      var i := |topo|;
      assert topo[..i] == topo;
      while i > 0
        invariant unchanged(this)
        invariant 0 <= i <= |topo| && Shaped(ops, data, g) && Shaped(ops, data, seeded)
        invariant InArena(ops, Reverse(topo[..i]))
        invariant FireAll(ops, data, g, Reverse(topo[..i])) == FireAll(ops, data, seeded, Reverse(topo))
      {
        FireReversedPrefix(ops, data, g, topo, i);
        i := i - 1;
        var fired := FireRule(ops, data, g, topo[i]);
        if fired.Err? {
          grad := g;
          return Fail(fired.error);
        }
        g := fired.value;
      }
      grad := g;
      return Pass;
    }
  }
}

/** What `backward()` guarantees, stated on `BackwardSpec`, which
    `Tape.Backward` is proved to compute. */
module BackwardFacts {
  import opened Failures
  import opened Autograd
  import opened Rules
  import opened RuleFacts
  import opened Topo
  import opened Engine

  /** Reversing keeps the members. */
  lemma ReverseMembers(t: seq<nat>)
    ensures forall u :: u in Reverse(t) <==> u in t
  {
    var order, n := Reverse(t), |t|;
    forall u | u in t
      ensures u in order
    {
      var j :| 0 <= j < n && t[j] == u;
      assert order[n - 1 - j] == u;
    }
  }

  /** Reversing keeps the elements distinct. */
  lemma ReverseDistinct(t: seq<nat>)
    requires forall i, j :: 0 <= i < j < |t| ==> t[i] != t[j]
    ensures var order := Reverse(t);
      forall i, j :: 0 <= i < j < |order| ==> order[i] != order[j]
  {
    var order, n := Reverse(t), |t|;
    forall i, j | 0 <= i < j < n
      ensures order[i] != order[j]
    {
      assert order[i] == t[n - 1 - i] && order[j] == t[n - 1 - j];
    }
  }

  /** A producer of the node at position `i` of a reversed topological order
      comes later in it. */
  lemma ReverseProducerLater(ops: seq<Op>, t: seq<nat>, i: nat, c: nat)
    requires ValidOps(ops) && TopoPrefix(ops, t) && i < |t|
    requires c in Children(ops[Reverse(t)[i]])
    ensures c in Reverse(t)[i + 1..]
  {
    var order, n := Reverse(t), |t|;
    assert order[i] == t[n - 1 - i];
    assert c in t[..n - 1 - i];
    var j :| 0 <= j < n - 1 - i && t[j] == c;
    assert order[i + 1..][n - 2 - j - i] == c;
  }

  /** Reversing a topological order puts every consumer before its
      producers. */
  lemma ReverseTopoPrefix(ops: seq<Op>, t: seq<nat>)
    requires ValidOps(ops) && TopoPrefix(ops, t)
    ensures ConsumersFirst(ops, Reverse(t))
  {
    var order := Reverse(t);
    ReverseDistinct(t);
    assert InArena(ops, order);
    forall i, c | 0 <= i < |order| && order[i] < |ops| && c in Children(ops[order[i]]) && c in order
      ensures c in order[i + 1..]
    {
      ReverseProducerLater(ops, t, i, c);
    }
  }

  /** The firing order puts every consumer before its producers, holds each
      node reachable from the root exactly once, and starts at the root. */
  lemma FiringOrderIsConsumersFirst(ops: seq<Op>, root: nat)
    requires ValidOps(ops) && root < |ops|
    ensures var order := Reverse(TopoOrder(ops, root));
      ConsumersFirst(ops, order) && |order| > 0 && order[0] == root &&
      forall u :: u in order <==> Reaches(ops, root, u)
  {
    var t := TopoOrder(ops, root);
    ReverseTopoPrefix(ops, t);
    ReverseMembers(t);
  }

  /** A node's operands are reachable from wherever the node is. */
  lemma ReachedOperands(ops: seq<Op>, r: nat, v: nat)
    requires ValidOps(ops) && r < |ops| && v < |ops| && Reaches(ops, r, v)
    ensures forall c :: c in Children(ops[v]) ==> Reaches(ops, r, c)
  {
    forall c | c in Children(ops[v])
      ensures Reaches(ops, r, c)
    {
      ReachesChild(ops, r, v, c);
    }
  }

  /** When the pass completes, the root's grad is 1: no rule adds to it. */
  lemma BackwardSeedsRoot(ops: seq<Op>, data: seq<real>, grad: seq<real>, root: nat)
    requires Shaped(ops, data, grad) && root < |ops|
    ensures var r := BackwardSpec(ops, data, grad, root);
      r.outcome.Pass? ==> r.grad[root] == 1.0
  {
    var order := Reverse(TopoOrder(ops, root));
    FiringOrderIsConsumersFirst(ops, root);
    if FireAll(ops, data, grad[root := 1.0], order).outcome.Pass? {
      FiredGradIsFinal(ops, data, grad[root := 1.0], order, 0);
      assert order[..0] == [];
    }
  }

  /** When the pass completes, every node's grad was already final when its
      own rule fired: the rules fired after it never add to it. */
  lemma BackwardFiresCompleteGrads(ops: seq<Op>, data: seq<real>, grad: seq<real>, root: nat, k: nat)
    requires Shaped(ops, data, grad) && root < |ops|
    requires BackwardSpec(ops, data, grad, root).outcome.Pass?
    requires k < |TopoOrder(ops, root)|
    ensures var order := Reverse(TopoOrder(ops, root));
      InArena(ops, order[..k]) &&
      FireAll(ops, data, grad[root := 1.0], order[..k]).grad[order[k]] ==
      BackwardSpec(ops, data, grad, root).grad[order[k]]
  {
    FiringOrderIsConsumersFirst(ops, root);
    FiredGradIsFinal(ops, data, grad[root := 1.0], Reverse(TopoOrder(ops, root)), k);
  }

  /** A node the root does not reach is no operand of a node it does. */
  lemma UnreachedIsNoOperand(ops: seq<Op>, root: nat, order: seq<nat>, u: nat)
    requires ValidOps(ops) && root < |ops| && InArena(ops, order) && !Reaches(ops, root, u)
    requires forall i :: 0 <= i < |order| ==> Reaches(ops, root, order[i])
    ensures forall i :: 0 <= i < |order| ==> u !in Children(ops[order[i]])
  {
    forall i | 0 <= i < |order|
      ensures u !in Children(ops[order[i]])
    {
      ReachedOperands(ops, root, order[i]);
    }
  }

  /** A node the root does not reach keeps its grad. */
  lemma BackwardKeepsUnreached(ops: seq<Op>, data: seq<real>, grad: seq<real>, root: nat, u: nat)
    requires Shaped(ops, data, grad) && root < |ops| && u < |ops| && !Reaches(ops, root, u)
    ensures BackwardSpec(ops, data, grad, root).grad[u] == grad[u]
  {
    var order := Reverse(TopoOrder(ops, root));
    FiringOrderIsConsumersFirst(ops, root);
    assert forall i :: 0 <= i < |order| ==> order[i] in order;
    UnreachedIsNoOperand(ops, root, order, u);
    FireAllKeeps(ops, data, grad[root := 1.0], order, u);
  }

  /** A sequence of rules fails exactly when one of them is a power rule
      that raises, and then with ZeroDivisionError. */
  lemma {:induction false} FireAllFails(ops: seq<Op>, data: seq<real>, grad: seq<real>, order: seq<nat>)
    requires Shaped(ops, data, grad) && InArena(ops, order)
    ensures var r := FireAll(ops, data, grad, order);
      (r.outcome.Fail? <==> exists i :: 0 <= i < |order| && PowRuleRaises(ops, data, order[i])) &&
      (r.outcome.Fail? ==> r.outcome.error == ZeroDivisionError)
    decreases |order|
  {
    if order != [] {
      match FireRule(ops, data, grad, order[0])
      case Ok(g) =>
        var rest := order[1..];
        FireAllFails(ops, data, g, rest);
        if exists i :: 0 <= i < |rest| && PowRuleRaises(ops, data, rest[i]) {
          var i :| 0 <= i < |rest| && PowRuleRaises(ops, data, rest[i]);
          assert PowRuleRaises(ops, data, order[i + 1]);
        }
        if exists i :: 0 <= i < |order| && PowRuleRaises(ops, data, order[i]) {
          var i :| 0 <= i < |order| && PowRuleRaises(ops, data, order[i]);
          assert i > 0 && rest[i - 1] == order[i];
        }
      case Err(e) =>
        assert PowRuleRaises(ops, data, order[0]);
    }
  }

  /** Some node the root reaches is `x ** n` with `x.data == 0` and `n <= 0`,
      whose rule evaluates zero to a negative power. */
  ghost predicate ReachesRaisingPow(ops: seq<Op>, data: seq<real>, root: nat)
    requires ValidOps(ops) && root < |ops|
  {
    exists v: nat :: v < |ops| && Reaches(ops, root, v) && PowRuleRaises(ops, data, v)
  }

  /** A raising rule in the firing order is a raising power node the root
      reaches. */
  lemma FiredRaisingNodeReached(ops: seq<Op>, data: seq<real>, root: nat, i: nat)
    requires ValidOps(ops) && root < |ops| && |data| == |ops|
    requires i < |TopoOrder(ops, root)|
    requires PowRuleRaises(ops, data, Reverse(TopoOrder(ops, root))[i])
    ensures ReachesRaisingPow(ops, data, root)
  {
    var order := Reverse(TopoOrder(ops, root));
    FiringOrderIsConsumersFirst(ops, root);
    assert order[i] in order;
    assert Reaches(ops, root, order[i]);
  }

  /** Raising rules in the firing order are exactly the raising power nodes
      the root reaches. */
  lemma RaisingRuleInOrder(ops: seq<Op>, data: seq<real>, root: nat)
    requires ValidOps(ops) && root < |ops| && |data| == |ops|
    ensures var order := Reverse(TopoOrder(ops, root));
      InArena(ops, order) &&
      ((exists i :: 0 <= i < |order| && PowRuleRaises(ops, data, order[i])) <==> ReachesRaisingPow(ops, data, root))
  {
    var order := Reverse(TopoOrder(ops, root));
    FiringOrderIsConsumersFirst(ops, root);
    if exists i :: 0 <= i < |order| && PowRuleRaises(ops, data, order[i]) {
      var i :| 0 <= i < |order| && PowRuleRaises(ops, data, order[i]);
      FiredRaisingNodeReached(ops, data, root, i);
    }
    if ReachesRaisingPow(ops, data, root) {
      var v: nat :| v < |ops| && Reaches(ops, root, v) && PowRuleRaises(ops, data, v);
      assert v in order;
      RaisingNodeFires(ops, data, order, v);
    }
  }

  lemma RaisingNodeFires(ops: seq<Op>, data: seq<real>, order: seq<nat>, v: nat)
    requires InArena(ops, order) && v < |ops| && v in order && PowRuleRaises(ops, data, v)
    ensures exists i :: 0 <= i < |order| && PowRuleRaises(ops, data, order[i])
  {
    var i :| 0 <= i < |order| && order[i] == v;
    assert PowRuleRaises(ops, data, order[i]);
  }

  /** The pass raises exactly when the root reaches such a power node, and
      then with ZeroDivisionError. */
  lemma BackwardFailsIff(ops: seq<Op>, data: seq<real>, grad: seq<real>, root: nat)
    requires Shaped(ops, data, grad) && root < |ops|
    ensures var r := BackwardSpec(ops, data, grad, root);
      (r.outcome.Fail? <==> ReachesRaisingPow(ops, data, root)) &&
      (r.outcome.Fail? ==> r.outcome.error == ZeroDivisionError)
  {
    FiringOrderIsConsumersFirst(ops, root);
    FireAllFails(ops, data, grad[root := 1.0], Reverse(TopoOrder(ops, root)));
    RaisingRuleInOrder(ops, data, root);
  }

  /** Grads accumulate across passes: an amount already in a leaf's grad
      (other than the root's) is carried through unchanged, because nothing
      but the root is reset. */
  lemma BackwardAccumulatesIntoLeaf(ops: seq<Op>, data: seq<real>, grad: seq<real>, root: nat, u: nat, d: real)
    requires Shaped(ops, data, grad) && root < |ops| && u < |ops| && ops[u] == Leaf && u != root
    ensures var r := BackwardSpec(ops, data, grad, root);
      BackwardSpec(ops, data, Bump(grad, u, d), root) == Run(Bump(r.grad, u, d), r.outcome)
  {
    var order := Reverse(TopoOrder(ops, root));
    FiringOrderIsConsumersFirst(ops, root);
    assert Bump(grad, u, d)[root := 1.0] == Bump(grad[root := 1.0], u, d);
    FireAllShiftsLeaf(ops, data, grad[root := 1.0], order, u, d);
  }

  /** Whatever grad the root held before the pass is overwritten. */
  lemma BackwardOverwritesRoot(ops: seq<Op>, data: seq<real>, grad: seq<real>, root: nat, c: real)
    requires Shaped(ops, data, grad) && root < |ops|
    ensures BackwardSpec(ops, data, grad[root := c], root) == BackwardSpec(ops, data, grad, root)
  {
    assert grad[root := c][root := 1.0] == grad[root := 1.0];
  }

  /** Rules of leaves change nothing. */
  lemma {:induction false} FireAllLeaves(ops: seq<Op>, data: seq<real>, grad: seq<real>, order: seq<nat>)
    requires Shaped(ops, data, grad) && InArena(ops, order)
    requires forall i :: 0 <= i < |order| ==> ops[order[i]] == Leaf
    ensures FireAll(ops, data, grad, order) == Run(grad, Pass)
    decreases |order|
  {
    if order != [] {
      FireAllLeaves(ops, data, grad, order[1..]);
    }
  }

  /** What a leaf reaches is itself. */
  lemma LeafReachesItself(ops: seq<Op>, c: nat, u: nat)
    requires ValidOps(ops) && c < |ops| && ops[c] == Leaf && Reaches(ops, c, u)
    ensures u == c
  {
  }

  /** From an operation whose operands are leaves, everything fired after
      the root is a leaf. */
  lemma FiredAfterRootAreLeaves(ops: seq<Op>, root: nat)
    requires ValidOps(ops) && root < |ops|
    requires forall c :: c in Children(ops[root]) ==> c < |ops| && ops[c] == Leaf
    ensures var order := Reverse(TopoOrder(ops, root));
      |order| > 0 && order[0] == root && InArena(ops, order) &&
      forall i :: 1 <= i < |order| ==> ops[order[i]] == Leaf
  {
    var order := Reverse(TopoOrder(ops, root));
    FiringOrderIsConsumersFirst(ops, root);
    assert forall i :: 0 <= i < |order| ==> order[i] in order;
    LeavesAfterRoot(ops, root, order);
  }

  lemma LeavesAfterRoot(ops: seq<Op>, root: nat, s: seq<nat>)
    requires ValidOps(ops) && root < |ops| && |s| > 0 && s[0] == root
    requires forall c :: c in Children(ops[root]) ==> c < |ops| && ops[c] == Leaf
    requires forall i, j :: 0 <= i < j < |s| ==> s[i] != s[j]
    requires forall i :: 0 <= i < |s| ==> Reaches(ops, root, s[i])
    ensures forall i :: 1 <= i < |s| ==> s[i] < |ops| && ops[s[i]] == Leaf
  {
    forall i | 1 <= i < |s|
      ensures s[i] < |ops| && ops[s[i]] == Leaf
    {
      ReachedBelowOneOp(ops, root, s[i]);
    }
  }

  lemma ReachedBelowOneOp(ops: seq<Op>, root: nat, u: nat)
    requires ValidOps(ops) && root < |ops| && Reaches(ops, root, u) && u != root
    requires forall c :: c in Children(ops[root]) ==> c < |ops| && ops[c] == Leaf
    ensures u < |ops| && ops[u] == Leaf
  {
    var c :| c in Children(ops[root]) && Reaches(ops, c, u);
    LeafReachesItself(ops, c, u);
  }

  /** From an operation whose operands are leaves, the pass is that
      operation's rule fired once on the seeded grads. */
  lemma BackwardOneOp(ops: seq<Op>, data: seq<real>, grad: seq<real>, root: nat)
    requires Shaped(ops, data, grad) && root < |ops|
    requires forall c :: c in Children(ops[root]) ==> c < |ops| && ops[c] == Leaf
    ensures BackwardSpec(ops, data, grad, root) ==
      match FireRule(ops, data, grad[root := 1.0], root)
      case Ok(g) => Run(g, Pass)
      case Err(e) => Run(grad[root := 1.0], Fail(e))
  {
    var order := Reverse(TopoOrder(ops, root));
    FiredAfterRootAreLeaves(ops, root);
    var rest := order[1..];
    assert forall i :: 0 <= i < |rest| ==> rest[i] == order[i + 1];
    match FireRule(ops, data, grad[root := 1.0], root)
    case Ok(g) =>
      FireAllLeaves(ops, data, g, rest);
    case Err(_) =>
  }
}
