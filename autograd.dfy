/** The computation graph of the scalar autograd engine (Engine.py): how a
    node was produced, which nodes it was produced from, and reachability
    through producers. Nodes live in an arena and are named by their index;
    a node's producers always have smaller indices, so every graph built
    through the operators is acyclic. */
module Autograd {

  /** How a node was produced, with the arena indices of its operands. The
      constructor chooses the node's backward rule (the Python closure).
      `TanhOp` keeps the output value its closure captured; the other rules
      read the nodes' current fields when they fire. */
  datatype Op =
    | Leaf                      // Value(x): no producers, no-op rule
    | AddOp(a: nat, b: nat)     // a + b
    | MulOp(a: nat, b: nat)     // a * b
    | PowOp(a: nat, n: int)     // a ** n, n an integer constant
    | SigmoidOp(a: nat)         // a.sigmoid()
    | LinearOp(a: nat)          // a.linear()
    | ReluOp(a: nat)            // a.relu()
    | TanhOp(a: nat, t: real)   // a.tanh(), t the captured output

  /** The `_children` tuple the operator passes to the node constructor. */
  function Operands(op: Op): seq<nat>
  {
    match op
    case Leaf => []
    case AddOp(a, b) => [a, b]
    case MulOp(a, b) => [a, b]
    case PowOp(a, _) => [a]
    case SigmoidOp(a) => [a]
    case LinearOp(a) => [a]
    case ReluOp(a) => [a]
    case TanhOp(a, _) => [a]
  }

  /** `_prev`: the operands as a set. */
  function Producers(op: Op): set<nat>
  {
    set c | c in Operands(op)
  }

  /** The order in which a traversal visits `_prev`: each producer once. */
  function Children(op: Op): (cs: seq<nat>)
    ensures forall i, j :: 0 <= i < j < |cs| ==> cs[i] != cs[j]
    ensures forall c :: c in cs <==> c in Producers(op)
  {
    match op
    case AddOp(a, b) => if a == b then [a] else [a, b]
    case MulOp(a, b) => if a == b then [a] else [a, b]
    case _ => Operands(op)
  }

  /** A node built from the same operand twice has a single producer. */
  lemma ProducersOfBinary(op: Op)
    requires op.AddOp? || op.MulOp?
    ensures Producers(op) == {op.a, op.b}
    ensures |Producers(op)| == if op.a == op.b then 1 else 2
  {
    assert op.a in Operands(op) && op.b in Operands(op);
    if op.a == op.b {
      assert Producers(op) == {op.a};
    }
  }

  /** Every operand of `op` is below index `v`. */
  predicate OperandsBelow(op: Op, v: nat)
  {
    match op
    case Leaf => true
    case AddOp(a, b) => a < v && b < v
    case MulOp(a, b) => a < v && b < v
    case PowOp(a, _) => a < v
    case SigmoidOp(a) => a < v
    case LinearOp(a) => a < v
    case ReluOp(a) => a < v
    case TanhOp(a, _) => a < v
  }

  /** Every producer precedes its consumer in the arena (stated both per
      operand field and per producer). */
  ghost predicate ValidOps(ops: seq<Op>)
  {
    (forall v :: 0 <= v < |ops| ==> OperandsBelow(ops[v], v)) &&
    (forall v, c :: 0 <= v < |ops| && c in Children(ops[v]) ==> c < v)
  }

  /** Appending a node whose operands are already in the arena keeps the
      arena acyclic. */
  lemma ValidOpsPush(ops: seq<Op>, op: Op)
    requires ValidOps(ops) && OperandsBelow(op, |ops|)
    ensures ValidOps(ops + [op])
  {
    var ops' := ops + [op];
    forall v, c | 0 <= v < |ops'| && c in Children(ops'[v])
      ensures c < v
    {
      if v < |ops| {
        assert ops'[v] == ops[v];
      }
    }
  }

  /** `u` is `v` or can be reached from `v` through `_prev`. */
  ghost predicate Reaches(ops: seq<Op>, v: nat, u: nat)
    requires ValidOps(ops) && v < |ops|
    decreases v
  {
    u == v || exists c :: c in Children(ops[v]) && Reaches(ops, c, u)
  }

  /** Only earlier nodes are reachable. */
  lemma {:induction false} ReachesBelow(ops: seq<Op>, v: nat, u: nat)
    requires ValidOps(ops) && v < |ops| && Reaches(ops, v, u)
    ensures u <= v
    decreases v
  {
    if u != v {
      var c :| c in Children(ops[v]) && Reaches(ops, c, u);
      ReachesBelow(ops, c, u);
    }
  }

  /** A producer of a reachable node is reachable. */
  lemma {:induction false} ReachesChild(ops: seq<Op>, r: nat, v: nat, c: nat)
    requires ValidOps(ops) && r < |ops| && v < |ops|
    requires Reaches(ops, r, v) && c in Children(ops[v])
    ensures Reaches(ops, r, c)
    decreases r
  {
    if v == r {
      assert Reaches(ops, c, c);
    } else {
      var c' :| c' in Children(ops[r]) && Reaches(ops, c', v);
      ReachesChild(ops, c', v, c);
    }
  }
}
