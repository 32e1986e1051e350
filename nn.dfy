/** The network containers of nn.py over the tape: a neuron, a layer and a
    network name the tape nodes holding their parameters. */
module NN {
  import opened Failures
  import opened Autograd
  import opened Engine
  import opened Rules

  /** The four activations the name table of nn.py offers. */
  datatype Activation = Tanh | Relu | Sigmoid | Linear

  /** `TinyNeuron`: weight nodes, a bias node and an activation. */
  datatype Neuron = Neuron(weights: seq<nat>, bias: nat, activation: Activation)

  /** `TinyLayer` */
  datatype Layer = Layer(neurons: seq<Neuron>)

  /** `TinyNeuralNetwork` */
  datatype Network = Network(layers: seq<Layer>)

  /** What a layer is called with and returns: a list of nodes or numbers,
      or one lone node (or number). */
  datatype Signal = Vector(items: seq<Operand>) | Scalar(item: Operand)

  /** The numbers a signal carries. */
  datatype Reading = Many(values: seq<real>) | One(value: real)

  // ---------------------------------------------------------------------
  // Parameters

  /** `TinyNeuron.parameters()`: the weights in order, then the bias. */
  function NeuronParameters(n: Neuron): (ps: seq<nat>)
    ensures |ps| == |n.weights| + 1
    ensures ps[..|n.weights|] == n.weights && ps[|n.weights|] == n.bias
  {
    n.weights + [n.bias]
  }

  /** The neurons' parameter lists, concatenated in neuron order. */
  function LayerParams(neurons: seq<Neuron>): seq<nat>
  {
    if neurons == [] then [] else LayerParams(neurons[..|neurons| - 1]) + NeuronParameters(neurons[|neurons| - 1])
  }

  /** The layers' parameter lists, concatenated in layer order. */
  function NetworkParams(layers: seq<Layer>): seq<nat>
  {
    if layers == [] then [] else NetworkParams(layers[..|layers| - 1]) + LayerParams(layers[|layers| - 1].neurons)
  }

  /** `TinyLayer.parameters()` */
  method LayerParameters(layer: Layer) returns (params: seq<nat>)
    ensures params == LayerParams(layer.neurons)
  {
    params := [];
    for i := 0 to |layer.neurons|
      invariant params == LayerParams(layer.neurons[..i])
    {
      assert layer.neurons[..i + 1][..i] == layer.neurons[..i];
      params := params + NeuronParameters(layer.neurons[i]);
    }
    assert layer.neurons[..|layer.neurons|] == layer.neurons;
  }

  /** `TinyNeuralNetwork.parameters()` */
  method NetworkParameters(net: Network) returns (params: seq<nat>)
    ensures params == NetworkParams(net.layers)
  {
    params := [];
    for i := 0 to |net.layers|
      invariant params == NetworkParams(net.layers[..i])
    {
      assert net.layers[..i + 1][..i] == net.layers[..i];
      var more := LayerParameters(net.layers[i]);
      params := params + more;
    }
    assert net.layers[..|net.layers|] == net.layers;
  }

  lemma MulStep(k: nat, p: nat)
    ensures (k + 1) * p == k * p + p
  {
  }

  /** A layer of `neurons` neurons with `inputs` weights each has
      `neurons * (inputs + 1)` parameters. */
  lemma {:induction false} LayerParamCount(neurons: seq<Neuron>, inputs: nat)
    requires forall n :: n in neurons ==> |n.weights| == inputs
    ensures |LayerParams(neurons)| == |neurons| * (inputs + 1)
  {
    if neurons != [] {
      var front := neurons[..|neurons| - 1];
      assert forall n :: n in front ==> n in neurons;
      LayerParamCount(front, inputs);
      MulStep(|front|, inputs + 1);
    }
  }

  /** The parameters of the first `j` neurons come first. */
  lemma {:induction false} LayerParamsPrefix(neurons: seq<Neuron>, j: nat)
    requires j <= |neurons|
    ensures LayerParams(neurons[..j]) <= LayerParams(neurons)
    decreases |neurons|
  {
    if j < |neurons| {
      var front := neurons[..|neurons| - 1];
      assert neurons[..j] == front[..j];
      LayerParamsPrefix(front, j);
    } else {
      assert neurons[..j] == neurons;
    }
  }

  /** Parameter `m` of neuron `j` sits at offset `j * (inputs + 1) + m` of
      the layer's list. */
  lemma LayerParamAt(neurons: seq<Neuron>, inputs: nat, j: nat, m: nat)
    requires forall n :: n in neurons ==> |n.weights| == inputs
    requires j < |neurons| && m <= inputs
    ensures j * (inputs + 1) + m < |LayerParams(neurons)|
    ensures LayerParams(neurons)[j * (inputs + 1) + m] == NeuronParameters(neurons[j])[m]
  {
    var before := neurons[..j];
    assert forall n :: n in before ==> n in neurons;
    LayerParamCount(before, inputs);
    assert neurons[..j + 1][..j] == before;
    assert LayerParams(neurons[..j + 1]) == LayerParams(before) + NeuronParameters(neurons[j]);
    LayerParamsPrefix(neurons, j + 1);
  }

  /** The total parameter count of layers sized `sizes[0]` (inputs), then
      `sizes[1]`, `sizes[2]`, …: layer `i` contributes
      `sizes[i + 1] * (sizes[i] + 1)`. */
  function ParamCount(sizes: seq<nat>): nat
  {
    if |sizes| < 2 then 0
    else ParamCount(sizes[..|sizes| - 1]) + sizes[|sizes| - 1] * (sizes[|sizes| - 2] + 1)
  }

  /** Layer `i` of `net` has `sizes[i + 1]` neurons of `sizes[i]` weights
      with activation `acts[i]`. */
  ghost predicate HasShape(net: Network, sizes: seq<nat>, acts: seq<Activation>)
  {
    |sizes| == |net.layers| + 1 && |acts| >= |net.layers| &&
    forall i :: 0 <= i < |net.layers| ==>
      |net.layers[i].neurons| == sizes[i + 1] &&
      forall n :: n in net.layers[i].neurons ==> |n.weights| == sizes[i] && n.activation == acts[i]
  }

  /** A network of the given shape has `ParamCount(sizes)` parameters. */
  lemma {:induction false} NetworkParamCount(net: Network, sizes: seq<nat>, acts: seq<Activation>)
    requires HasShape(net, sizes, acts)
    ensures |NetworkParams(net.layers)| == ParamCount(sizes)
    decreases |net.layers|
  {
    if net.layers != [] {
      var k := |net.layers| - 1;
      var front := Network(net.layers[..k]);
      assert HasShape(front, sizes[..k + 1], acts);
      NetworkParamCount(front, sizes[..k + 1], acts);
      assert forall n :: n in net.layers[k].neurons ==> |n.weights| == sizes[k];
      assert sizes[..k + 1] == sizes[..|sizes| - 1];
      LayerParamCount(net.layers[k].neurons, sizes[k]);
    }
  }

  // ---------------------------------------------------------------------
  // Construction

  /** `random.uniform(-1, 1)`: `draw(i)` is the number drawn for the leaf
      that becomes node `i`. */
  ghost predicate Uniform(draw: nat -> real)
  {
    forall i :: -1.0 <= draw(i) <= 1.0
  }

  /** The nodes `lo`, `lo + 1`, …, `hi - 1`. */
  function Range(lo: nat, hi: nat): (r: seq<nat>)
    requires lo <= hi
    ensures |r| == hi - lo && forall i :: 0 <= i < |r| ==> r[i] == lo + i
  {
    seq(hi - lo, i requires 0 <= i < hi - lo => lo + i)
  }

  /** Consecutive runs of nodes join into one. */
  lemma RangeJoin(lo: nat, mid: nat, hi: nat)
    requires lo <= mid <= hi
    ensures Range(lo, mid) + Range(mid, hi) == Range(lo, hi)
  {
  }

  lemma LayerParamsAppend(neurons: seq<Neuron>, n: Neuron)
    ensures LayerParams(neurons + [n]) == LayerParams(neurons) + NeuronParameters(n)
  {
    assert (neurons + [n])[..|neurons|] == neurons;
  }

  lemma NetworkParamsAppend(layers: seq<Layer>, layer: Layer)
    ensures NetworkParams(layers + [layer]) == NetworkParams(layers) + LayerParams(layer.neurons)
  {
    assert (layers + [layer])[..|layers|] == layers;
  }

  /** The nodes from `lo` on are leaves holding their draws, with zero
      grads. */
  ghost predicate FreshLeaves(t: Tape, lo: nat, draw: nat -> real)
    reads t
  {
    forall i :: lo <= i < |t.ops| && i < |t.data| && i < |t.grad| ==>
      t.ops[i] == Leaf && t.data[i] == draw(i) && t.grad[i] == 0.0
  }

  /** `TinyNeuron(num_inputs, activation)`: `num_inputs` weight leaves, then
      the bias leaf, all drawn in [-1, 1]. Its parameters are exactly the
      new nodes, in order. */
  method NewNeuron(t: Tape, inputs: nat, act: Activation, draw: nat -> real) returns (n: Neuron)
    requires t.Valid() && Uniform(draw)
    modifies t
    ensures t.Valid() && t.Extends(old(t.data), old(t.grad), old(t.ops))
    ensures |t.ops| == old(|t.ops|) + inputs + 1 && FreshLeaves(t, old(|t.ops|), draw)
    ensures |n.weights| == inputs && n.activation == act
    ensures NeuronParameters(n) == Range(old(|t.ops|), |t.ops|)
    ensures forall i :: 0 <= i < |NeuronParameters(n)| ==> -1.0 <= t.data[NeuronParameters(n)[i]] <= 1.0
  {
    var weights: seq<nat> := [];
    for k := 0 to inputs
      invariant t.Valid() && t.Extends(old(t.data), old(t.grad), old(t.ops))
      invariant |t.ops| == old(|t.ops|) + k && FreshLeaves(t, old(|t.ops|), draw)
      invariant weights == Range(old(|t.ops|), |t.ops|)
    {
      var w := t.NewLeaf(draw(|t.ops|));
      weights := weights + [w];
    }
    var bias := t.NewLeaf(draw(|t.ops|));
    n := Neuron(weights, bias, act);
  }

  /** `TinyLayer(num_inputs, num_neurons, activation)`: the neurons are built
      one after another, so the layer's parameters are exactly the new
      nodes, in order. */
  method NewLayer(t: Tape, inputs: nat, width: nat, act: Activation, draw: nat -> real) returns (layer: Layer)
    requires t.Valid() && Uniform(draw)
    modifies t
    ensures t.Valid() && t.Extends(old(t.data), old(t.grad), old(t.ops))
    ensures FreshLeaves(t, old(|t.ops|), draw) && old(|t.ops|) <= |t.ops|
    ensures |layer.neurons| == width
    ensures forall n :: n in layer.neurons ==> |n.weights| == inputs && n.activation == act
    ensures LayerParams(layer.neurons) == Range(old(|t.ops|), |t.ops|)
  {
    var neurons: seq<Neuron> := [];
    for j := 0 to width
      invariant t.Valid() && t.Extends(old(t.data), old(t.grad), old(t.ops))
      invariant FreshLeaves(t, old(|t.ops|), draw) && old(|t.ops|) <= |t.ops|
      invariant |neurons| == j
      invariant forall n :: n in neurons ==> |n.weights| == inputs && n.activation == act
      invariant LayerParams(neurons) == Range(old(|t.ops|), |t.ops|)
    {
      ghost var mid := |t.ops|;
      var n := NewNeuron(t, inputs, act, draw);
      LayerParamsAppend(neurons, n);
      RangeJoin(old(|t.ops|), mid, |t.ops|);
      neurons := neurons + [n];
    }
    layer := Layer(neurons);
  }

  /** Appending a layer of the next width keeps the shape. */
  lemma HasShapeAppend(layers: seq<Layer>, layer: Layer, sizes: seq<nat>, acts: seq<Activation>)
    requires |layers| + 2 <= |sizes| && |layers| < |acts|
    requires HasShape(Network(layers), sizes[..|layers| + 1], acts)
    requires |layer.neurons| == sizes[|layers| + 1]
    requires forall n :: n in layer.neurons ==> |n.weights| == sizes[|layers|] && n.activation == acts[|layers|]
    ensures HasShape(Network(layers + [layer]), sizes[..|layers| + 2], acts)
  {
    var i := |layers|;
    assert forall j :: 0 <= j < i ==> (layers + [layer])[j] == layers[j];
  }

  /** `TinyNeuralNetwork(input_features, hidden_layers, activations)`: layer
      `i` has `layer_sizes[i]` inputs and `layer_sizes[i + 1]` neurons, with
      `layer_sizes = [input_features] + hidden_layers`. Too few activations
      raise IndexError once the layers that have one are built. */
  method NewNetwork(t: Tape, inputFeatures: nat, hidden: seq<nat>, acts: seq<Activation>, draw: nat -> real)
    returns (r: Result<Network>)
    requires t.Valid() && Uniform(draw)
    modifies t
    ensures t.Valid() && t.Extends(old(t.data), old(t.grad), old(t.ops))
    ensures FreshLeaves(t, old(|t.ops|), draw) && old(|t.ops|) <= |t.ops|
    ensures r.Err? <==> |acts| < |hidden|
    ensures r.Err? ==> r.error == IndexError
    ensures r.Ok? ==> |r.value.layers| == |hidden| && HasShape(r.value, [inputFeatures] + hidden, acts)
    ensures r.Ok? ==> NetworkParams(r.value.layers) == Range(old(|t.ops|), |t.ops|)
    ensures r.Ok? ==> |t.ops| == old(|t.ops|) + ParamCount([inputFeatures] + hidden)
  {
    var sizes := [inputFeatures] + hidden;
    var layers: seq<Layer> := [];
    for i := 0 to |hidden|
      invariant t.Valid() && t.Extends(old(t.data), old(t.grad), old(t.ops))
      invariant FreshLeaves(t, old(|t.ops|), draw) && old(|t.ops|) <= |t.ops|
      invariant |layers| == i && i <= |acts|
      invariant HasShape(Network(layers), sizes[..i + 1], acts)
      invariant NetworkParams(layers) == Range(old(|t.ops|), |t.ops|)
    {
      if i >= |acts| {
        return Err(IndexError);
      }
      ghost var mid := |t.ops|;
      var layer := NewLayer(t, sizes[i], sizes[i + 1], acts[i], draw);
      NetworkParamsAppend(layers, layer);
      RangeJoin(old(|t.ops|), mid, |t.ops|);
      HasShapeAppend(layers, layer, sizes, acts);
      layers := layers + [layer];
    }
    assert sizes[..|hidden| + 1] == sizes;
    NetworkParamCount(Network(layers), sizes, acts);
    r := Ok(Network(layers));
  }

  // ---------------------------------------------------------------------
  // Forward pass

  /** The activation applied to a number: tanh and sigmoid stay strictly
      inside (-1, 1) and (0, 1), relu never goes below zero or its input,
      linear is the identity. */
  function Activate(act: Activation, x: real, exp: real -> real): (y: real)
    requires PositiveExp(exp)
    ensures act == Tanh ==> -1.0 < y < 1.0
    ensures act == Sigmoid ==> 0.0 < y < 1.0
    ensures act == Relu ==> y >= 0.0 && y >= x && (x > 0.0 ==> y == x)
    ensures act == Linear ==> y == x
  {
    match act
    case Tanh => TanhBounds(exp(2.0 * x)); (exp(2.0 * x) - 1.0) / (exp(2.0 * x) + 1.0)
    case Relu => if x < 0.0 then 0.0 else x
    case Sigmoid => SigmoidBounds(exp(-x)); 1.0 / (1.0 + exp(-x))
    case Linear => x
  }

  lemma TanhBounds(e: real)
    requires e > 0.0
    ensures -1.0 < (e - 1.0) / (e + 1.0) < 1.0
  {
  }

  lemma SigmoidBounds(e: real)
    requires e > 0.0
    ensures 0.0 < 1.0 / (1.0 + e) < 1.0
  {
  }

  /** `sum((w * x for w, x in zip(weights, inputs)), bias)`: the bias plus
      each product in turn, over the shorter of the two lists. */
  function WeightedSum(bias: real, ws: seq<real>, xs: seq<real>): (s: real)
    ensures |ws| == 0 || |xs| == 0 ==> s == bias
    ensures (forall i :: 0 <= i < |ws| ==> ws[i] == 0.0) ==> s == bias
    decreases |ws|
  {
    var n := if |ws| < |xs| then |ws| else |xs|;
    if n == 0 then bias else WeightedSum(bias, ws[..n - 1], xs[..n - 1]) + ws[n - 1] * xs[n - 1]
  }

  /** One more zipped pair adds its product to the sum. */
  lemma WeightedSumStep(bias: real, ws: seq<real>, xs: seq<real>, k: nat, total: real, w: real, x: real)
    requires k < |ws| && k < |xs|
    requires total == WeightedSum(bias, ws[..k], xs[..k]) && w == ws[k] && x == xs[k]
    ensures WeightedSum(bias, ws[..k + 1], xs[..k + 1]) == total + Times(w, x)
  {
    assert ws[..k + 1][..k] == ws[..k] && xs[..k + 1][..k] == xs[..k];
  }

  /** `zip` stops at the shorter list: weights or inputs beyond it do not
      count. */
  lemma WeightedSumTruncates(bias: real, ws: seq<real>, xs: seq<real>, n: nat)
    requires n == if |ws| < |xs| then |ws| else |xs|
    ensures WeightedSum(bias, ws, xs) == WeightedSum(bias, ws[..n], xs[..n])
  {
    if n > 0 {
      assert ws[..n][..n - 1] == ws[..n - 1] && xs[..n][..n - 1] == xs[..n - 1];
    }
  }

  /** The bias is where the sum starts: it is added exactly once. */
  lemma {:induction false} WeightedSumFromBias(bias: real, ws: seq<real>, xs: seq<real>)
    ensures WeightedSum(bias, ws, xs) == bias + WeightedSum(0.0, ws, xs)
    decreases |ws|
  {
    var n := if |ws| < |xs| then |ws| else |xs|;
    if n > 0 {
      WeightedSumFromBias(bias, ws[..n - 1], xs[..n - 1]);
    }
  }

  function Gather(data: seq<real>, idx: seq<nat>): (r: seq<real>)
    requires forall i :: 0 <= i < |idx| ==> idx[i] < |data|
    ensures |r| == |idx| && forall i :: 0 <= i < |idx| ==> r[i] == data[idx[i]]
  {
    seq(|idx|, i requires 0 <= i < |idx| => data[idx[i]])
  }

  predicate NeuronIn(n: Neuron, size: nat)
  {
    n.bias < size && forall i :: 0 <= i < |n.weights| ==> n.weights[i] < size
  }

  predicate LayerIn(layer: Layer, size: nat)
  {
    forall j :: 0 <= j < |layer.neurons| ==> NeuronIn(layer.neurons[j], size)
  }

  predicate NetworkIn(net: Network, size: nat)
  {
    forall i :: 0 <= i < |net.layers| ==> LayerIn(net.layers[i], size)
  }

  predicate ItemsIn(items: seq<Operand>, size: nat)
  {
    forall i :: 0 <= i < |items| ==> OperandIn(items[i], size)
  }

  predicate SignalIn(s: Signal, size: nat)
  {
    match s
    case Vector(items) => ItemsIn(items, size)
    case Scalar(x) => OperandIn(x, size)
  }

  function Values(data: seq<real>, items: seq<Operand>): (r: seq<real>)
    requires ItemsIn(items, |data|)
    ensures |r| == |items| && forall i :: 0 <= i < |items| ==> r[i] == OperandValue(data, items[i])
  {
    seq(|items|, i requires 0 <= i < |items| => OperandValue(data, items[i]))
  }

  function Read(data: seq<real>, s: Signal): Reading
    requires SignalIn(s, |data|)
  {
    match s
    case Vector(items) => Many(Values(data, items))
    case Scalar(x) => One(OperandValue(data, x))
  }

  /** The number a neuron outputs for inputs `xs`. */
  function NeuronValue(data: seq<real>, n: Neuron, xs: seq<real>, exp: real -> real): (y: real)
    requires NeuronIn(n, |data|) && PositiveExp(exp)
    ensures n.activation == Tanh ==> -1.0 < y < 1.0
    ensures n.activation == Sigmoid ==> 0.0 < y < 1.0
    ensures n.activation == Relu ==> y >= 0.0
    ensures n.activation == Linear ==> y == WeightedSum(data[n.bias], Gather(data, n.weights), xs)
  {
    Activate(n.activation, WeightedSum(data[n.bias], Gather(data, n.weights), xs), exp)
  }

  /** What a layer call yields: no neurons give the empty list whatever the
      input; otherwise a lone input raises TypeError (it cannot be zipped);
      a single output is returned on its own, several as a list in neuron
      order. */
  function LayerValue(data: seq<real>, layer: Layer, input: Reading, exp: real -> real): (r: Result<Reading>)
    requires LayerIn(layer, |data|) && PositiveExp(exp)
    ensures r.Err? <==> input.One? && |layer.neurons| > 0
    ensures r.Err? ==> r.error == TypeError
    ensures r.Ok? ==> (r.value.One? <==> |layer.neurons| == 1)
    ensures r.Ok? && r.value.One? ==> r.value.value == NeuronValue(data, layer.neurons[0], input.values, exp)
    ensures r.Ok? && r.value.Many? ==>
      |r.value.values| == |layer.neurons| &&
      forall j :: 0 <= j < |layer.neurons| ==> r.value.values[j] == NeuronValue(data, layer.neurons[j], input.values, exp)
  {
    if |layer.neurons| == 0 then Ok(Many([]))
    else if input.One? then Err(TypeError)
    else
      var outs := seq(|layer.neurons|, j requires 0 <= j < |layer.neurons| => NeuronValue(data, layer.neurons[j], input.values, exp));
      if |outs| == 1 then Ok(One(outs[0])) else Ok(Many(outs))
  }

  /** What a network call yields: the layers applied in order, stopping at
      the first that raises. */
  function NetworkValue(data: seq<real>, layers: seq<Layer>, input: Reading, exp: real -> real): (r: Result<Reading>)
    requires NetworkIn(Network(layers), |data|) && PositiveExp(exp)
    ensures r.Err? ==> r.error == TypeError
    ensures layers == [] ==> r == Ok(input)
    decreases |layers|
  {
    if layers == [] then Ok(input)
    else
      match LayerValue(data, layers[0], input, exp)
      case Err(e) => Err(e)
      case Ok(next) => NetworkValue(data, layers[1..], next, exp)
  }

  /** Fed a list, a network none of whose layers but the last has exactly
      one neuron never raises, and yields as many numbers as its last layer
      has neurons: that layer's lone output when it has one neuron, a list
      otherwise. */
  lemma {:induction false} NetworkOutputWidth(data: seq<real>, layers: seq<Layer>, input: Reading, exp: real -> real)
    requires NetworkIn(Network(layers), |data|) && PositiveExp(exp) && input.Many? && layers != []
    requires forall i :: 0 <= i < |layers| - 1 ==> |layers[i].neurons| != 1
    ensures var r := NetworkValue(data, layers, input, exp);
      var width := |layers[|layers| - 1].neurons|;
      r.Ok? && (r.value.One? <==> width == 1) && (r.value.Many? ==> |r.value.values| == width)
    decreases |layers|
  {
    var next := LayerValue(data, layers[0], input, exp);
    assert next.Ok?;
    if |layers| > 1 {
      var rest := layers[1..];
      assert |layers[0].neurons| != 1;
      assert NetworkIn(Network(rest), |data|) by {
        forall i | 0 <= i < |rest|
          ensures LayerIn(rest[i], |data|)
        {
          assert rest[i] == layers[i + 1];
        }
      }
      assert forall i :: 0 <= i < |rest| - 1 ==> rest[i] == layers[i + 1];
      NetworkOutputWidth(data, rest, next.value, exp);
    }
  }

  /** A layer that is not the last and has exactly one neuron makes the
      next layer, if it has neurons, raise TypeError. */
  lemma LoneOutputCannotFeedLayer(data: seq<real>, layers: seq<Layer>, input: Reading, exp: real -> real)
    requires NetworkIn(Network(layers), |data|) && PositiveExp(exp) && |layers| >= 2
    requires |layers[0].neurons| == 1 && |layers[1].neurons| > 0
    ensures NetworkValue(data, layers, input, exp) == Err(TypeError)
  {
    var first := LayerValue(data, layers[0], input, exp);
    if first.Ok? {
      assert layers[1..][0] == layers[1];
      assert LayerValue(data, layers[1], first.value, exp).Err?;
    }
  }

  /** Growing the tape leaves what a neuron computes alone. */
  lemma NeuronValueStable(data: seq<real>, data': seq<real>, n: Neuron, xs: seq<real>, exp: real -> real)
    requires data <= data' && NeuronIn(n, |data|) && PositiveExp(exp)
    ensures NeuronValue(data', n, xs, exp) == NeuronValue(data, n, xs, exp)
  {
    assert Gather(data', n.weights) == Gather(data, n.weights);
  }

  lemma LayerValueStable(data: seq<real>, data': seq<real>, layer: Layer, input: Reading, exp: real -> real)
    requires data <= data' && LayerIn(layer, |data|) && PositiveExp(exp)
    ensures LayerValue(data', layer, input, exp) == LayerValue(data, layer, input, exp)
  {
    var r, r' := LayerValue(data, layer, input, exp), LayerValue(data', layer, input, exp);
    if input.Many? {
      forall j | 0 <= j < |layer.neurons|
        ensures NeuronValue(data', layer.neurons[j], input.values, exp) == NeuronValue(data, layer.neurons[j], input.values, exp)
      {
        NeuronValueStable(data, data', layer.neurons[j], input.values, exp);
      }
      if r.Ok? && r.value.Many? {
        assert r'.value.values == r.value.values;
      }
    }
  }

  /** The node the activation `act` appends over node `a`; `y` is its
      output, which the tanh rule keeps. */
  function ActivationOp(act: Activation, a: nat, y: real): Op
  {
    match act
    case Tanh => TanhOp(a, y)
    case Relu => ReluOp(a)
    case Sigmoid => SigmoidOp(a)
    case Linear => LinearOp(a)
  }

  /** The grads of `n` freshly built nodes. */
  function Zeros(n: nat): (z: seq<real>)
    ensures |z| == n && forall i :: 0 <= i < n ==> z[i] == 0.0
  {
    seq(n, _ => 0.0)
  }

  /** The tape (every node's data, grad and producer record) and one node
      of it: the running total of the generator sum, or the node an
      activation reads. */
  datatype Stage = Stage(ops: seq<Op>, data: seq<real>, grad: seq<real>, acc: nat)

  predicate StageShaped(st: Stage)
  {
    |st.data| == |st.ops| && |st.grad| == |st.ops| && st.acc < |st.ops|
  }

  /** The tape once the activation node for `act` over node `st.acc`,
      holding `y`, is appended with grad 0. */
  function Activated(st: Stage, act: Activation, y: real): (st': Stage)
    requires StageShaped(st)
    ensures StageShaped(st') && st'.acc == |st.ops| && |st'.ops| == |st.ops| + 1
  {
    Stage(st.ops + [ActivationOp(act, st.acc, y)], st.data + [y], st.grad + [0.0], |st.ops|)
  }

  /** The activation node for `act`. */
  method Apply(t: Tape, act: Activation, a: nat, exp: real -> real) returns (out: nat)
    requires t.Valid() && a < |t.ops| && PositiveExp(exp)
    modifies t
    ensures t.Valid()
    ensures Stage(t.ops, t.data, t.grad, out) ==
      Activated(Stage(old(t.ops), old(t.data), old(t.grad), a), act, Activate(act, old(t.data)[a], exp))
  {
    match act
    case Tanh => out := t.Tanh(a, exp);
    case Relu => out := t.Relu(a);
    case Sigmoid => out := t.Sigmoid(a, exp);
    case Linear => out := t.Linear(a);
    assert t.ops == old(t.ops) + [t.ops[out]];
    assert t.data == old(t.data) + [t.data[out]];
    assert t.grad == old(t.grad) + [0.0];
  }

  /** The nodes one step of the generator sum appends after `n0` nodes: the
      wrapped number if `x` is one, the product `w * x`, and the new total. */
  function StepOps(n0: nat, acc: nat, w: nat, x: Operand): (step: seq<Op>)
    ensures |step| == if x.Const? then 3 else 2
  {
    match x
    case Node(i) => [MulOp(w, i), AddOp(acc, n0)]
    case Const(_) => [Leaf, MulOp(w, n0), AddOp(acc, n0 + 1)]
  }

  /** The data of the nodes `StepOps` appends. */
  function StepData(data: seq<real>, acc: nat, w: nat, x: Operand): (step: seq<real>)
    requires acc < |data| && w < |data| && OperandIn(x, |data|)
    ensures |step| == if x.Const? then 3 else 2
    ensures step[|step| - 1] == data[acc] + Times(data[w], OperandValue(data, x))
  {
    var p := Times(data[w], OperandValue(data, x));
    match x
    case Node(_) => [p, data[acc] + p]
    case Const(c) => [c, p, data[acc] + p]
  }

  lemma StepDataOf(data: seq<real>, acc: nat, w: nat, x: Operand, p: real)
    requires acc < |data| && w < |data| && OperandIn(x, |data|) && p == Times(data[w], OperandValue(data, x))
    ensures x.Const? ==> StepData(data, acc, w, x) == [x.x, p, data[acc] + p]
    ensures x.Node? ==> StepData(data, acc, w, x) == [p, data[acc] + p]
  {
    var step := StepData(data, acc, w, x);
    if x.Node? {
      assert |step| == 2 && step[0] == p && step[1] == data[acc] + p;
    }
  }

  /** The tape after one step `acc + w * x`: its nodes appended with grad 0,
      the new total the last of them. */
  function Stepped(st: Stage, w: nat, x: Operand): (st': Stage)
    requires StageShaped(st) && w < |st.ops| && OperandIn(x, |st.ops|)
    ensures StageShaped(st') && st'.acc == |st'.ops| - 1 && |st'.ops| == |st.ops| + |StepOps(|st.ops|, st.acc, w, x)|
  {
    var step := StepOps(|st.ops|, st.acc, w, x);
    Stage(st.ops + step, st.data + StepData(st.data, st.acc, w, x), st.grad + Zeros(|step|), |st.ops| + |step| - 1)
  }

  /** One step of the generator sum: `acc + w * x`, a leaf when `x` is a raw
      number, then a product node and a sum node. */
  method AddProduct(t: Tape, acc: nat, w: nat, x: Operand) returns (out: nat)
    requires t.Valid() && acc < |t.ops| && w < |t.ops| && OperandIn(x, |t.ops|)
    modifies t
    ensures t.Valid()
    ensures Stage(t.ops, t.data, t.grad, out) == Stepped(Stage(old(t.ops), old(t.data), old(t.grad), acc), w, x)
  {
    ghost var before := t.data;
    var product := t.Mul(w, x);
    ghost var mid, p := t.data, t.data[product];
    assert p == Times(before[w], OperandValue(before, x));
    if x.Const? {
      assert mid == before + [x.x, p];
    } else {
      assert mid == before + [p];
    }
    out := t.Add(acc, Node(product));
    assert t.data == mid + [before[acc] + p];
    StepDataOf(before, acc, w, x, p);
  }

  /** The weights and inputs the sum reads are all on the tape. */
  predicate StageIn(st: Stage, ws: seq<nat>, items: seq<Operand>)
  {
    StageShaped(st) && (forall i :: 0 <= i < |ws| ==> ws[i] < |st.ops|) && ItemsIn(items, |st.ops|)
  }

  /** The tape the generator sum leaves once the pairs from `k` on are added
      to the running total; `zip` stops at the shorter list. */
  function Summed(st: Stage, ws: seq<nat>, items: seq<Operand>, k: nat): (s: Stage)
    requires StageIn(st, ws, items)
    ensures StageShaped(s)
    decreases |ws| - k
  {
    if k >= |ws| || k >= |items| then st
    else Summed(Stepped(st, ws[k], items[k]), ws, items, k + 1)
  }

  /** The sum only appends: the tape it starts from is a prefix of the one
      it leaves. */
  lemma {:induction false} SummedExtends(st: Stage, ws: seq<nat>, items: seq<Operand>, k: nat)
    requires StageIn(st, ws, items)
    ensures var s := Summed(st, ws, items, k);
      st.ops <= s.ops && st.data <= s.data && st.grad <= s.grad
    decreases |ws| - k
  {
    if k < |ws| && k < |items| {
      SummedStep(st, ws, items, k);
      SummedExtends(Stepped(st, ws[k], items[k]), ws, items, k + 1);
    }
  }

  /** One step of the sum, unfolded: the stepped tape still holds the
      weights and inputs. */
  lemma SummedStep(st: Stage, ws: seq<nat>, items: seq<Operand>, k: nat)
    requires StageIn(st, ws, items) && k < |ws| && k < |items|
    ensures ws[k] < |st.ops| && OperandIn(items[k], |st.ops|)
    ensures StageIn(Stepped(st, ws[k], items[k]), ws, items)
    ensures Summed(st, ws, items, k) == Summed(Stepped(st, ws[k], items[k]), ws, items, k + 1)
  {
  }

  /** Every node the sum appends starts with grad 0. */
  lemma {:induction false} SummedFresh(st: Stage, ws: seq<nat>, items: seq<Operand>, k: nat)
    requires StageIn(st, ws, items)
    ensures forall i :: |st.grad| <= i < |Summed(st, ws, items, k).grad| ==> Summed(st, ws, items, k).grad[i] == 0.0
    decreases |ws| - k
  {
    if k < |ws| && k < |items| {
      var st' := Stepped(st, ws[k], items[k]);
      SummedFresh(st', ws, items, k + 1);
      SummedExtends(st', ws, items, k + 1);
      var s' := Summed(st', ws, items, k + 1);
      forall i | |st.grad| <= i < |s'.grad|
        ensures s'.grad[i] == 0.0
      {
        if i < |st'.grad| {
          var z := Zeros(|st'.grad| - |st.grad|);
          assert st'.grad == st.grad + z;
          assert s'.grad[i] == st'.grad[i] == z[i - |st.grad|];
        } else {
          assert s'.grad[i] == 0.0;
        }
      }
    }
  }

  /** The sum appends nothing exactly when one of the lists is used up. */
  lemma SummedExhausted(st: Stage, ws: seq<nat>, items: seq<Operand>, k: nat)
    requires StageIn(st, ws, items)
    ensures k >= |ws| || k >= |items| <==> Summed(st, ws, items, k) == st
  {
    if k < |ws| && k < |items| {
      SummedStep(st, ws, items, k);
      SummedExtends(Stepped(st, ws[k], items[k]), ws, items, k + 1);
    }
  }

  /** One step keeps the running total equal to the sum of the pairs so far,
      and reads the same weights and inputs. */
  lemma SummedValueAdvance(st: Stage, ws: seq<nat>, items: seq<Operand>, k: nat, bias: real)
    requires StageIn(st, ws, items) && k < |ws| && k < |items|
    requires st.data[st.acc] == WeightedSum(bias, Gather(st.data, ws)[..k], Values(st.data, items)[..k])
    ensures var st' := Stepped(st, ws[k], items[k]);
      Gather(st'.data, ws) == Gather(st.data, ws) && Values(st'.data, items) == Values(st.data, items) &&
      st'.data[st'.acc] == WeightedSum(bias, Gather(st.data, ws)[..k + 1], Values(st.data, items)[..k + 1])
  {
    var gs, xs := Gather(st.data, ws), Values(st.data, items);
    var st' := Stepped(st, ws[k], items[k]);
    WeightedSumStep(bias, gs, xs, k, st.data[st.acc], st.data[ws[k]], OperandValue(st.data, items[k]));
    assert Gather(st'.data, ws) == gs && Values(st'.data, items) == xs;
  }

  /** The total the sum leaves is the bias plus the products of the zipped
      weights and inputs, whatever nodes it appends on the way. */
  lemma {:induction false} SummedValue(st: Stage, ws: seq<nat>, items: seq<Operand>, k: nat, bias: real)
    requires StageIn(st, ws, items) && k <= |ws| && k <= |items|
    requires st.data[st.acc] == WeightedSum(bias, Gather(st.data, ws)[..k], Values(st.data, items)[..k])
    ensures var s := Summed(st, ws, items, k);
      s.data[s.acc] == WeightedSum(bias, Gather(st.data, ws), Values(st.data, items))
    decreases |ws| - k
  {
    if k == |ws| || k == |items| {
      WeightedSumTruncates(bias, Gather(st.data, ws), Values(st.data, items), k);
    } else {
      SummedValueAdvance(st, ws, items, k, bias);
      SummedValue(Stepped(st, ws[k], items[k]), ws, items, k + 1, bias);
    }
  }

  /** The node the sum leaves holds the bias plus the products of the zipped
      weights and inputs. */
  lemma SummedTotal(st: Stage, ws: seq<nat>, items: seq<Operand>)
    requires StageIn(st, ws, items)
    ensures var s := Summed(st, ws, items, 0);
      s.data[s.acc] == WeightedSum(st.data[st.acc], Gather(st.data, ws), Values(st.data, items))
  {
    var b := st.data[st.acc];
    assert b == WeightedSum(b, Gather(st.data, ws)[..0], Values(st.data, items)[..0]);
    SummedValue(st, ws, items, 0, b);
  }

  /** The generator `sum` of `TinyNeuron.__call__`: for each zipped weight
      and input a leaf when the input is a raw number, then a product node,
      added to the running total, which starts as the bias node itself. */
  method SumNodes(t: Tape, n: Neuron, items: seq<Operand>) returns (acc: nat)
    requires t.Valid() && NeuronIn(n, |t.ops|) && ItemsIn(items, |t.ops|)
    modifies t
    ensures t.Valid()
    ensures Stage(t.ops, t.data, t.grad, acc) == Summed(Stage(old(t.ops), old(t.data), old(t.grad), n.bias), n.weights, items, 0)
  {
    ghost var goal := Summed(Stage(t.ops, t.data, t.grad, n.bias), n.weights, items, 0);
    var m := if |n.weights| < |items| then |n.weights| else |items|;
    acc := n.bias;
    for k := 0 to m
      invariant t.Valid() && StageIn(Stage(t.ops, t.data, t.grad, acc), n.weights, items)
      invariant Summed(Stage(t.ops, t.data, t.grad, acc), n.weights, items, k) == goal
    {
      SummedStep(Stage(t.ops, t.data, t.grad, acc), n.weights, items, k);
      acc := AddProduct(t, acc, n.weights[k], items[k]);
    }
    SummedExhausted(Stage(t.ops, t.data, t.grad, acc), n.weights, items, m);
  }

  /** The nodes `TinyNeuron.__call__` builds for a list input: the
      generator sum over the zipped weights and inputs, then the activation
      node over its total, which is the output. */
  method NeuronNodes(t: Tape, n: Neuron, items: seq<Operand>, exp: real -> real) returns (out: nat)
    requires t.Valid() && NeuronIn(n, |t.ops|) && ItemsIn(items, |t.ops|) && PositiveExp(exp)
    modifies t
    ensures t.Valid() && t.Extends(old(t.data), old(t.grad), old(t.ops))
    ensures out < |t.ops| && t.data[out] == NeuronValue(old(t.data), n, Values(old(t.data), items), exp)
    ensures Stage(t.ops, t.data, t.grad, out) ==
      Activated(Summed(Stage(old(t.ops), old(t.data), old(t.grad), n.bias), n.weights, items, 0), n.activation, t.data[out])
  {
    ghost var st := Stage(t.ops, t.data, t.grad, n.bias);
    var acc := SumNodes(t, n, items);
    SummedTotal(st, n.weights, items);
    SummedExtends(st, n.weights, items, 0);
    out := Apply(t, n.activation, acc, exp);
  }

  /** `TinyNeuron.__call__`: a list input gives the activation of the
      weighted sum; a lone input cannot be zipped and raises TypeError. */
  method NeuronCall(t: Tape, n: Neuron, inputs: Signal, exp: real -> real) returns (r: Result<nat>)
    requires t.Valid() && NeuronIn(n, |t.ops|) && SignalIn(inputs, |t.ops|) && PositiveExp(exp)
    modifies t
    ensures t.Valid() && t.Extends(old(t.data), old(t.grad), old(t.ops))
    ensures r.Err? <==> inputs.Scalar?
    ensures r.Err? ==> r.error == TypeError && t.data == old(t.data) && t.grad == old(t.grad) && t.ops == old(t.ops)
    ensures r.Ok? ==>
      r.value < |t.ops| &&
      t.data[r.value] == NeuronValue(old(t.data), n, Values(old(t.data), inputs.items), exp)
  {
    match inputs
    case Scalar(_) =>
      return Err(TypeError);
    case Vector(items) =>
      var out := NeuronNodes(t, n, items, exp);
      r := Ok(out);
  }

  /** `TinyLayer.__call__`: every neuron on the same input, in order; one
      output is returned on its own. */
  method LayerCall(t: Tape, layer: Layer, inputs: Signal, exp: real -> real) returns (r: Result<Signal>)
    requires t.Valid() && LayerIn(layer, |t.ops|) && SignalIn(inputs, |t.ops|) && PositiveExp(exp)
    modifies t
    ensures t.Valid() && t.Extends(old(t.data), old(t.grad), old(t.ops))
    ensures var v := LayerValue(old(t.data), layer, Read(old(t.data), inputs), exp);
      (r.Ok? <==> v.Ok?) && (r.Err? ==> r.error == v.error) &&
      (r.Ok? ==> SignalIn(r.value, |t.ops|) && Read(t.data, r.value) == v.value)
  {
    ghost var data0 := t.data;
    ghost var xs := if inputs.Vector? then Values(data0, inputs.items) else [];
    var outputs: seq<nat> := [];
    for k := 0 to |layer.neurons|
      invariant t.Valid() && t.Extends(old(t.data), old(t.grad), old(t.ops))
      invariant k > 0 ==> inputs.Vector?
      invariant |outputs| == k
      invariant forall j :: 0 <= j < k ==>
        outputs[j] < |t.ops| && t.data[outputs[j]] == NeuronValue(data0, layer.neurons[j], xs, exp)
    {
      assert NeuronIn(layer.neurons[k], |t.ops|);
      ghost var data1 := t.data;
      if inputs.Vector? {
        assert Values(data1, inputs.items) == xs;
        NeuronValueStable(data0, data1, layer.neurons[k], xs, exp);
      }
      var o := NeuronCall(t, layer.neurons[k], inputs, exp);
      if o.Err? {
        return Err(o.error);
      }
      ghost var earlier := outputs;
      outputs := outputs + [o.value];
      forall j | 0 <= j < k + 1
        ensures outputs[j] < |t.ops| && t.data[outputs[j]] == NeuronValue(data0, layer.neurons[j], xs, exp)
      {
        if j < k {
          assert outputs[j] == earlier[j] && t.data[earlier[j]] == data1[earlier[j]];
        }
      }
    }
    if |outputs| == 1 {
      return Ok(Scalar(Node(outputs[0])));
    }
    var items := seq(|outputs|, j requires 0 <= j < |outputs| => Node(outputs[j]));
    r := Ok(Vector(items));
  }

  /** `TinyNeuralNetwork.__call__`: the layers in order, each fed what the
      previous returned. */
  method NetworkCall(t: Tape, net: Network, inputs: Signal, exp: real -> real) returns (r: Result<Signal>)
    requires t.Valid() && NetworkIn(net, |t.ops|) && SignalIn(inputs, |t.ops|) && PositiveExp(exp)
    modifies t
    ensures t.Valid() && t.Extends(old(t.data), old(t.grad), old(t.ops))
    ensures var v := NetworkValue(old(t.data), net.layers, Read(old(t.data), inputs), exp);
      (r.Ok? <==> v.Ok?) && (r.Err? ==> r.error == v.error) &&
      (r.Ok? ==> SignalIn(r.value, |t.ops|) && Read(t.data, r.value) == v.value)
  {
    ghost var data0 := t.data;
    ghost var goal := NetworkValue(data0, net.layers, Read(data0, inputs), exp);
    var current := inputs;
    for i := 0 to |net.layers|
      invariant t.Valid() && t.Extends(old(t.data), old(t.grad), old(t.ops))
      invariant SignalIn(current, |t.ops|)
      invariant NetworkIn(Network(net.layers[i..]), |data0|)
      invariant goal == NetworkValue(data0, net.layers[i..], Read(t.data, current), exp)
    {
      ghost var data1 := t.data;
      assert net.layers[i..][0] == net.layers[i] && net.layers[i..][1..] == net.layers[i + 1..];
      LayerValueStable(data0, data1, net.layers[i], Read(data1, current), exp);
      var next := LayerCall(t, net.layers[i], current, exp);
      if next.Err? {
        return Err(next.error);
      }
      current := next.value;
    }
    r := Ok(current);
  }
}
