/** The body of one iteration of `TinyNeuralNetwork.train` (nn.py:63-77)
    once the loss node exists: zero the parameters' grads, run the backward
    pass from the loss, step every parameter against its grad, and record
    the loss. */
module Training {
  import opened Failures
  import opened Autograd
  import opened Rules
  import opened Engine
  import opened NN

  /** One row of `history`: the iteration, counted from 1, and the loss. */
  datatype Entry = Entry(iteration: nat, loss: real)

  predicate AllIn(params: seq<nat>, size: nat)
  {
    forall i :: 0 <= i < |params| ==> params[i] < size
  }

  /** The grads after `p.grad = 0.0` for each `p` of `params` in turn: the
      listed nodes hold 0, every other node its old grad. */
  function Zeroed(grad: seq<real>, params: seq<nat>): (g: seq<real>)
    requires AllIn(params, |grad|)
    ensures |g| == |grad|
    ensures forall i :: 0 <= i < |grad| ==> g[i] == if i in params then 0.0 else grad[i]
    decreases |params|
  {
    if params == [] then grad
    else
      var front := params[..|params| - 1];
      assert forall i :: i in params <==> i in front || i == params[|params| - 1];
      Zeroed(grad, front)[params[|params| - 1] := 0.0]
  }

  lemma AddOnce(c: real, y: real)
    ensures Times(c + 1.0, y) == Times(c, y) + y
  {
  }

  /** The data after `p.data -= learning_rate * p.grad` for each `p` of
      `params` in turn. */
  function Descended(data: seq<real>, grad: seq<real>, params: seq<nat>, lr: real): (d: seq<real>)
    requires |grad| == |data| && AllIn(params, |data|)
    ensures |d| == |data|
    decreases |params|
  {
    if params == [] then data
    else
      var d := Descended(data, grad, params[..|params| - 1], lr);
      var p := params[|params| - 1];
      d[p := d[p] - Times(lr, grad[p])]
  }

  /** A node listed `c` times in `params` moves by `c` steps; any other node
      keeps its data. */
  lemma {:induction false} DescendedMoves(data: seq<real>, grad: seq<real>, params: seq<nat>, lr: real)
    requires |grad| == |data| && AllIn(params, |data|)
    ensures var d := Descended(data, grad, params, lr);
      forall i :: 0 <= i < |data| ==> d[i] == data[i] - Times(multiset(params)[i] as real, Times(lr, grad[i]))
    decreases |params|
  {
    if params != [] {
      var front, p := params[..|params| - 1], params[|params| - 1];
      assert params == front + [p];
      DescendedMoves(data, grad, front, lr);
      AddOnce(multiset(front)[p] as real, Times(lr, grad[p]));
    }
  }

  lemma DescendedStep(data: seq<real>, grad: seq<real>, params: seq<nat>, k: nat, lr: real)
    requires |grad| == |data| && AllIn(params, |data|) && k < |params|
    ensures Descended(data, grad, params[..k + 1], lr) ==
      var d := Descended(data, grad, params[..k], lr);
      d[params[k] := d[params[k]] - Times(lr, grad[params[k]])]
  {
    assert params[..k + 1][..k] == params[..k];
  }

  /** A node listed once moves by exactly one step. */
  lemma {:induction false} CountOfDistinct(params: seq<nat>, i: nat)
    requires forall j, k :: 0 <= j < k < |params| ==> params[j] != params[k]
    requires i in params
    ensures multiset(params)[i] == 1
  {
    var front, p := params[..|params| - 1], params[|params| - 1];
    assert params == front + [p];
    if i != p {
      CountOfDistinct(front, i);
    } else {
      assert i !in front;
    }
  }

  /** With distinct parameters, each parameter moves by `-lr * grad` and
      nothing else moves. */
  lemma DescendDistinct(data: seq<real>, grad: seq<real>, params: seq<nat>, lr: real)
    requires |grad| == |data| && AllIn(params, |data|)
    requires forall j, k :: 0 <= j < k < |params| ==> params[j] != params[k]
    ensures forall i :: 0 <= i < |data| ==>
      Descended(data, grad, params, lr)[i] == if i in params then data[i] - lr * grad[i] else data[i]
  {
    DescendedMoves(data, grad, params, lr);
    forall i | 0 <= i < |data| && i in params
      ensures multiset(params)[i] == 1
    {
      CountOfDistinct(params, i);
    }
  }

  /** A built network's parameters are distinct: they are consecutive
      fresh nodes. */
  lemma RangeDistinct(lo: nat, hi: nat)
    requires lo <= hi
    ensures forall j, k :: 0 <= j < k < |Range(lo, hi)| ==> Range(lo, hi)[j] != Range(lo, hi)[k]
  {
  }

  /** Every parameter of a network on the tape is a tape node. */
  lemma {:induction false} LayerParamsIn(neurons: seq<Neuron>, size: nat)
    requires LayerIn(Layer(neurons), size)
    ensures AllIn(LayerParams(neurons), size)
  {
    if neurons != [] {
      var front := neurons[..|neurons| - 1];
      assert LayerIn(Layer(front), size) by {
        assert forall j :: 0 <= j < |front| ==> front[j] == neurons[j];
      }
      LayerParamsIn(front, size);
      assert NeuronIn(neurons[|neurons| - 1], size);
    }
  }

  lemma {:induction false} NetworkParamsIn(layers: seq<Layer>, size: nat)
    requires NetworkIn(Network(layers), size)
    ensures AllIn(NetworkParams(layers), size)
  {
    if layers != [] {
      var front := layers[..|layers| - 1];
      assert NetworkIn(Network(front), size) by {
        assert forall i :: 0 <= i < |front| ==> front[i] == layers[i];
      }
      NetworkParamsIn(front, size);
      LayerParamsIn(layers[|layers| - 1].neurons, size);
    }
  }

  /** `for p in self.parameters(): p.grad = 0.0` */
  method ZeroGrad(t: Tape, params: seq<nat>)
    requires t.Valid() && AllIn(params, |t.ops|)
    modifies t
    ensures t.Valid() && t.data == old(t.data) && t.ops == old(t.ops)
    ensures t.grad == Zeroed(old(t.grad), params)
  {
    for k := 0 to |params|
      invariant t.Valid() && t.data == old(t.data) && t.ops == old(t.ops)
      invariant t.grad == Zeroed(old(t.grad), params[..k])
    {
      assert params[..k + 1][..k] == params[..k];
      t.grad := t.grad[params[k] := 0.0];
    }
    assert params[..|params|] == params;
  }

  /** `for p in self.parameters(): p.data -= learning_rate * p.grad` */
  method Descend(t: Tape, params: seq<nat>, lr: real)
    requires t.Valid() && AllIn(params, |t.ops|)
    modifies t
    ensures t.Valid() && t.grad == old(t.grad) && t.ops == old(t.ops)
    ensures t.data == Descended(old(t.data), old(t.grad), params, lr)
  {
    for k := 0 to |params|
      invariant t.Valid() && t.grad == old(t.grad) && t.ops == old(t.ops)
      invariant t.data == Descended(old(t.data), old(t.grad), params[..k], lr)
    {
      DescendedStep(old(t.data), old(t.grad), params, k, lr);
      var p := params[k];
      assert lr * t.grad[p] == Times(lr, t.grad[p]);
      t.data := t.data[p := t.data[p] - lr * t.grad[p]];
    }
    assert params[..|params|] == params;
  }

  /** One iteration of `train` after the loss node `error` is built: the
      grads are those of a backward pass from `error` over zeroed parameter
      grads, every parameter takes one step, and `history` gains
      `[i + 1, error.data]`. A raising backward pass stops the iteration
      before the update. */
  method TrainStep(t: Tape, net: Network, error: nat, lr: real, i: nat, history: seq<Entry>)
    returns (outcome: Outcome, history': seq<Entry>)
    requires t.Valid() && error < |t.ops| && NetworkIn(net, |t.ops|)
    modifies t
    ensures t.Valid() && t.ops == old(t.ops)
    ensures AllIn(NetworkParams(net.layers), |t.ops|)
    ensures var params := NetworkParams(net.layers);
      var run := BackwardSpec(t.ops, old(t.data), Zeroed(old(t.grad), params), error);
      outcome == run.outcome && t.grad == run.grad &&
      (outcome.Pass? ==> t.data == Descended(old(t.data), run.grad, params, lr)) &&
      (outcome.Fail? ==> t.data == old(t.data))
    ensures outcome.Pass? ==> history' == history + [Entry(i + 1, t.data[error])]
    ensures outcome.Fail? ==> history' == history
  {
    var params := NetworkParameters(net);
    NetworkParamsIn(net.layers, |t.ops|);
    ZeroGrad(t, params);
    outcome := t.Backward(error);
    if outcome.Fail? {
      return outcome, history;
    }
    Descend(t, params, lr);
    history' := history + [Entry(i + 1, t.data[error])];
  }

  /** Because the parameters' grads are zeroed first, what an iteration
      computes does not depend on the grads they held before it. */
  lemma StepForgetsOldGrads(ops: seq<Op>, data: seq<real>, grad1: seq<real>, grad2: seq<real>, params: seq<nat>, error: nat)
    requires Shaped(ops, data, grad1) && |grad2| == |grad1| && error < |ops| && AllIn(params, |ops|)
    requires forall i :: 0 <= i < |grad1| && i !in params ==> grad1[i] == grad2[i]
    ensures BackwardSpec(ops, data, Zeroed(grad1, params), error) == BackwardSpec(ops, data, Zeroed(grad2, params), error)
  {
    assert Zeroed(grad1, params) == Zeroed(grad2, params);
  }
}
