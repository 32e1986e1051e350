/** The depth-first topological ordering that `Value.backward` builds
    (Engine.py:107-117): the nested `build_topo` visits each producer before
    appending a node, and the `visited` set keeps shared nodes from being
    appended twice. */
module Topo {
  import opened Autograd

  /** `t` lists arena nodes, each once, every node after all its producers. */
  ghost predicate TopoPrefix(ops: seq<Op>, t: seq<nat>)
    requires ValidOps(ops)
  {
    (forall i :: 0 <= i < |t| ==> t[i] < |ops|) &&
    (forall i, j :: 0 <= i < j < |t| ==> t[i] != t[j]) &&
    (forall i, c :: 0 <= i < |t| && t[i] < |ops| && c in Children(ops[t[i]]) ==> c in t[..i])
  }

  /** A topological prefix holds everything reachable from its members. */
  lemma {:induction false} TopoPrefixClosed(ops: seq<Op>, t: seq<nat>, x: nat, u: nat)
    requires ValidOps(ops) && TopoPrefix(ops, t) && x < |ops| && x in t && Reaches(ops, x, u)
    ensures u in t
    decreases x
  {
    if u != x {
      var c :| c in Children(ops[x]) && Reaches(ops, c, u);
      var i :| 0 <= i < |t| && t[i] == x;
      assert c in t[..i];
      TopoPrefixClosed(ops, t, c, u);
    }
  }

  lemma TopoPrefixAppend(ops: seq<Op>, t: seq<nat>, v: nat)
    requires ValidOps(ops) && TopoPrefix(ops, t) && v < |ops| && v !in t
    requires forall c :: c in Children(ops[v]) ==> c in t
    ensures TopoPrefix(ops, t + [v])
  {
    var t' := t + [v];
    forall i, c | 0 <= i < |t'| && t'[i] < |ops| && c in Children(ops[t'[i]])
      ensures c in t'[..i]
    {
      if i < |t| {
        assert t'[..i] == t[..i];
      } else {
        assert t'[..i] == t;
      }
    }
  }

  /** `u` is reachable from one of `cs`. */
  ghost predicate ReachedFrom(ops: seq<Op>, cs: seq<nat>, u: nat)
    requires ValidOps(ops)
  {
    exists c :: c in cs && c < |ops| && Reaches(ops, c, u)
  }

  /** What holds whenever `build_topo(v)` is entered: the nodes visited but
      not yet appended are the ones whose calls are still running, and they
      all lie above `v`. */
  ghost predicate DfsPre(ops: seq<Op>, v: nat, visited: set<nat>, topo: seq<nat>)
    requires ValidOps(ops)
  {
    TopoPrefix(ops, topo) &&
    (forall u :: u in topo ==> u in visited) &&
    (forall u :: u in visited && u !in topo ==> v < u)
  }

  /** What holds before the `i`-th producer of `v` is visited. */
  ghost predicate DfsFromPre(ops: seq<Op>, v: nat, i: nat, visited: set<nat>, topo: seq<nat>)
    requires ValidOps(ops) && v < |ops|
  {
    i <= |Children(ops[v])| && TopoPrefix(ops, topo) &&
    (forall u :: u in topo ==> u in visited) &&
    v in visited && v !in topo &&
    (forall u :: u in visited && u !in topo ==> v <= u)
  }

  /** `build_topo(v)` on the given `visited` set and `topo` list: the new
      `visited` set and `topo` list. It appends exactly the nodes reachable
      from `v` that were not listed yet, each after its producers, and `v`
      last when `v` had not been visited. */
  ghost function Dfs(ops: seq<Op>, v: nat, visited: set<nat>, topo: seq<nat>): (r: (set<nat>, seq<nat>))
    requires ValidOps(ops) && v < |ops| && DfsPre(ops, v, visited, topo)
    ensures topo <= r.1 && TopoPrefix(ops, r.1)
    ensures forall u :: u in r.1 <==> u in topo || Reaches(ops, v, u)
    ensures forall u :: u in r.0 <==> u in visited || u in r.1
    ensures v !in visited ==> |r.1| > 0 && r.1[|r.1| - 1] == v
    decreases v, 1, 0
  {
    if v in visited then
      assert v in topo;
      assert forall u :: Reaches(ops, v, u) ==> u in topo by {
        forall u | Reaches(ops, v, u) ensures u in topo {
          TopoPrefixClosed(ops, topo, v, u);
        }
      }
      (visited, topo)
    else
      var (visited', topo') := DfsFrom(ops, v, 0, visited + {v}, topo);
      DfsClose(ops, v, topo, topo');
      (visited', topo' + [v])
  }

  /** Appending `v` once all its producers' calls have returned. */
  lemma DfsClose(ops: seq<Op>, v: nat, topo: seq<nat>, topo1: seq<nat>)
    requires ValidOps(ops) && v < |ops| && TopoPrefix(ops, topo1) && v !in topo1
    requires forall u :: u in topo1 <==> u in topo || ReachedFrom(ops, Children(ops[v])[0..], u)
    ensures TopoPrefix(ops, topo1 + [v])
    ensures forall u :: u in topo1 + [v] <==> u in topo || Reaches(ops, v, u)
  {
    var cs := Children(ops[v]);
    assert cs[0..] == cs;
    forall c | c in cs
      ensures c in topo1
    {
      assert c < v;
      assert Reaches(ops, c, c);
    }
    TopoPrefixAppend(ops, topo1, v);
    forall u
      ensures u in topo1 + [v] <==> u in topo || Reaches(ops, v, u)
    {
      if u != v {
        if Reaches(ops, v, u) {
          var c :| c in cs && Reaches(ops, c, u);
          assert c < v;
          assert ReachedFrom(ops, cs, u);
        }
        if ReachedFrom(ops, cs, u) {
          var c :| c in cs && c < |ops| && Reaches(ops, c, u);
          assert Reaches(ops, v, u);
        }
      }
    }
  }

  /** The loop `for child in v._prev: build_topo(child)` from the `i`-th
      producer on. */
  ghost function DfsFrom(ops: seq<Op>, v: nat, i: nat, visited: set<nat>, topo: seq<nat>): (r: (set<nat>, seq<nat>))
    requires ValidOps(ops) && v < |ops| && DfsFromPre(ops, v, i, visited, topo)
    ensures topo <= r.1 && TopoPrefix(ops, r.1) && v !in r.1
    ensures forall u :: u in r.1 <==> u in topo || ReachedFrom(ops, Children(ops[v])[i..], u)
    ensures forall u :: u in r.0 <==> u in visited || u in r.1
    decreases v, 0, |Children(ops[v])| - i
  {
    var cs := Children(ops[v]);
    if i == |cs| then
      (visited, topo)
    else
      DfsStepPre(ops, v, i, visited, topo);
      var (visited1, topo1) := Dfs(ops, cs[i], visited, topo);
      DfsStepPost(ops, v, i, visited, topo, visited1, topo1);
      var r := DfsFrom(ops, v, i + 1, visited1, topo1);
      DfsStepJoin(ops, v, i, topo, topo1, r.1);
      r
  }

  /** Before the `i`-th producer is visited, `build_topo` may be entered on it. */
  lemma DfsStepPre(ops: seq<Op>, v: nat, i: nat, visited: set<nat>, topo: seq<nat>)
    requires ValidOps(ops) && v < |ops| && DfsFromPre(ops, v, i, visited, topo) && i < |Children(ops[v])|
    ensures Children(ops[v])[i] < v && DfsPre(ops, Children(ops[v])[i], visited, topo)
  {
    assert Children(ops[v])[i] in Children(ops[v]);
  }

  /** After the `i`-th producer is visited, the loop may go on. */
  lemma DfsStepPost(ops: seq<Op>, v: nat, i: nat, visited: set<nat>, topo: seq<nat>, visited1: set<nat>, topo1: seq<nat>)
    requires ValidOps(ops) && v < |ops| && DfsFromPre(ops, v, i, visited, topo) && i < |Children(ops[v])|
    requires Children(ops[v])[i] < v
    requires topo <= topo1 && TopoPrefix(ops, topo1)
    requires forall u :: u in topo1 <==> u in topo || Reaches(ops, Children(ops[v])[i], u)
    requires forall u :: u in visited1 <==> u in visited || u in topo1
    ensures DfsFromPre(ops, v, i + 1, visited1, topo1)
  {
    var c := Children(ops[v])[i];
    if Reaches(ops, c, v) {
      ReachesBelow(ops, c, v);
    }
    assert v !in topo1;
    assert forall w :: w in topo ==> w in topo1;
  }

  /** The nodes listed after the `i`-th producer and the rest of the loop. */
  lemma DfsStepJoin(ops: seq<Op>, v: nat, i: nat, topo: seq<nat>, topo1: seq<nat>, topo2: seq<nat>)
    requires ValidOps(ops) && v < |ops| && i < |Children(ops[v])|
    requires Children(ops[v])[i] < |ops|
    requires forall u :: u in topo1 <==> u in topo || Reaches(ops, Children(ops[v])[i], u)
    requires forall u :: u in topo2 <==> u in topo1 || ReachedFrom(ops, Children(ops[v])[i + 1..], u)
    ensures forall u :: u in topo2 <==> u in topo || ReachedFrom(ops, Children(ops[v])[i..], u)
  {
    var cs := Children(ops[v]);
    forall u
      ensures u in topo2 <==> u in topo || ReachedFrom(ops, cs[i..], u)
    {
      if u in topo2 && u !in topo {
        if Reaches(ops, cs[i], u) {
          assert cs[i] in cs[i..];
        } else {
          var c :| c in cs[i + 1..] && c < |ops| && Reaches(ops, c, u);
          assert c in cs[i..];
        }
      }
      if ReachedFrom(ops, cs[i..], u) {
        var c :| c in cs[i..] && c < |ops| && Reaches(ops, c, u);
        if c != cs[i] {
          assert c in cs[i + 1..];
        }
      }
    }
  }

  /** The order `backward` fires rules in reverse: every node reachable from
      `root` exactly once, producers before consumers, `root` last. */
  ghost function TopoOrder(ops: seq<Op>, root: nat): (t: seq<nat>)
    requires ValidOps(ops) && root < |ops|
    ensures TopoPrefix(ops, t)
    ensures forall u :: u in t <==> Reaches(ops, root, u)
    ensures |t| > 0 && t[|t| - 1] == root
  {
    Dfs(ops, root, {}, []).1
  }

  /** `build_topo(self)` as `backward` calls it: from an empty visited set
      and an empty order. */
  method TopoSort(ops: seq<Op>, root: nat) returns (topo: seq<nat>)
    requires ValidOps(ops) && root < |ops|
    ensures topo == TopoOrder(ops, root)
  {
    var visited;
    visited, topo := BuildTopo(ops, root, {}, []);
  }

  /** The nested `build_topo` of `backward`. */
  method BuildTopo(ops: seq<Op>, v: nat, visited: set<nat>, topo: seq<nat>) returns (visited': set<nat>, topo': seq<nat>)
    requires ValidOps(ops) && v < |ops| && DfsPre(ops, v, visited, topo)
    ensures (visited', topo') == Dfs(ops, v, visited, topo)
    decreases v
  {
    if v in visited {
      return visited, topo;
    }
    visited', topo' := visited + {v}, topo;
    var children := Children(ops[v]);
    for i := 0 to |children|
      invariant DfsFromPre(ops, v, i, visited', topo')
      invariant DfsFrom(ops, v, i, visited', topo') == DfsFrom(ops, v, 0, visited + {v}, topo)
    {
      DfsStepPre(ops, v, i, visited', topo');
      ghost var (visited0, topo0) := (visited', topo');
      visited', topo' := BuildTopo(ops, children[i], visited', topo');
      DfsStepPost(ops, v, i, visited0, topo0, visited', topo');
    }
    topo' := topo' + [v];
  }

  function Reverse(s: seq<nat>): (r: seq<nat>)
    ensures |r| == |s| && forall i :: 0 <= i < |s| ==> r[i] == s[|s| - 1 - i]
  {
    seq(|s|, i requires 0 <= i < |s| => s[|s| - 1 - i])
  }
}
