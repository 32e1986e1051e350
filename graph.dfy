/** `Trace` of graph.py: the nodes a root depends on and the producer-to-
    consumer edges between them, collected by a depth-first walk. */
module Graph {
  import opened Autograd
  import opened Topo
  import opened Engine

  /** Every edge `(c, u)` joins a collected consumer `u` to one of its
      producers `c`. */
  ghost predicate EdgesSound(ops: seq<Op>, nodes: set<nat>, edges: set<(nat, nat)>)
  {
    forall e :: e in edges ==> e.1 in nodes && e.1 < |ops| && e.0 in Children(ops[e.1])
  }

  /** Every collected node outside `open` (the nodes whose producers are
      still being walked) has all its producers collected, each with its
      edge. */
  ghost predicate Closed(ops: seq<Op>, nodes: set<nat>, edges: set<(nat, nat)>, open: set<nat>)
  {
    forall u :: u in nodes && u !in open ==>
      u < |ops| && forall c :: c in Children(ops[u]) ==> c in nodes && (c, u) in edges
  }

  /** A closed collection holding the root holds all the root reaches. */
  lemma {:induction false} ClosedHoldsReached(ops: seq<Op>, nodes: set<nat>, edges: set<(nat, nat)>, v: nat, u: nat)
    requires ValidOps(ops) && v < |ops| && Closed(ops, nodes, edges, {}) && v in nodes && Reaches(ops, v, u)
    ensures u in nodes
    decreases v
  {
    if u != v {
      var c :| c in Children(ops[v]) && Reaches(ops, c, u);
      ClosedHoldsReached(ops, nodes, edges, c, u);
    }
  }

  /** The nested `build` of `Trace`. */
  method Build(ops: seq<Op>, v: nat, nodes: set<nat>, edges: set<(nat, nat)>, ghost open: set<nat>)
    returns (nodes': set<nat>, edges': set<(nat, nat)>)
    requires ValidOps(ops) && v < |ops| && open <= nodes
    requires EdgesSound(ops, nodes, edges) && Closed(ops, nodes, edges, open)
    ensures nodes <= nodes' && edges <= edges' && v in nodes'
    ensures EdgesSound(ops, nodes', edges') && Closed(ops, nodes', edges', open)
    ensures forall u :: u in nodes' ==> u in nodes || Reaches(ops, v, u)
    decreases v
  {
    if v in nodes {
      return nodes, edges;
    }
    nodes', edges' := nodes + {v}, edges;
    var children := Children(ops[v]);
    for i := 0 to |children|
      invariant nodes + {v} <= nodes' && edges <= edges'
      invariant EdgesSound(ops, nodes', edges') && Closed(ops, nodes', edges', open + {v})
      invariant forall j :: 0 <= j < i ==> children[j] in nodes' && (children[j], v) in edges'
      invariant forall u :: u in nodes' ==> u in nodes || Reaches(ops, v, u)
    {
      var child := children[i];
      assert child < v;
      edges' := edges' + {(child, v)};
      ghost var nodes0 := nodes';
      nodes', edges' := Build(ops, child, nodes', edges', open + {v});
      forall u | u in nodes'
        ensures u in nodes || Reaches(ops, v, u)
      {
        if u !in nodes0 {
          assert Reaches(ops, child, u);
          assert Reaches(ops, v, u);
        }
      }
    }
  }

  /** `Trace(root)`: exactly the nodes `root` reaches, which are the nodes
      `backward()` orders, and exactly the edges from each of them to its
      producers. The tape is only read. */
  method Trace(t: Tape, root: nat) returns (nodes: set<nat>, edges: set<(nat, nat)>)
    requires t.Valid() && root < |t.ops|
    ensures forall u: nat :: u in nodes <==> u < |t.ops| && Reaches(t.ops, root, u)
    ensures forall u: nat :: u in nodes <==> u in TopoOrder(t.ops, root)
    ensures forall e :: e in edges <==> e.1 in nodes && e.1 < |t.ops| && e.0 in Children(t.ops[e.1])
  {
    nodes, edges := Build(t.ops, root, {}, {}, {});
    forall u: nat | u < |t.ops| && Reaches(t.ops, root, u)
      ensures u in nodes
    {
      ClosedHoldsReached(t.ops, nodes, edges, root, u);
    }
    forall u | u in nodes
      ensures u < |t.ops|
    {
      ReachesBelow(t.ops, root, u);
    }
  }
}
