# Tinygrad scalar autograd, modelled in Dafny

This project models the scalar reverse-mode automatic differentiation engine
of Tinygrad (`Engine.py`), the graph walk in `graph.py`, and the small neural
network layer built on top of it in `nn.py`. It proves properties of the model.

**Arena.** Every `Value` the program creates lives in an arena, the class
`Engine.Tape`. The arena holds three sequences indexed by node:
- `data`: the node's value;
- `grad`: the node's gradient;
- `ops`: how the node was produced, given by the `Autograd.Op` datatype.

A node refers to its operands (`_prev`) by their arena index. That index is
always smaller than the node's own, so every graph the operators can build
is acyclic.

**Operators.** Each operator (`+`, `*`, `**`, `sigmoid`, `linear`, `relu`,
`tanh`, and the derived operators from `__neg__` to `__rtruediv__`) is a
method of the tape. It appends the new node and, where the source does,
a leaf that wraps a raw number.

**Backward rules.** A node's closure (`_backward`) is replaced by a rule
chosen by its `Op`. `Rules.FireRule` gives the gradient updates of that
rule, with the same `+=` accumulation as the source.

**`backward()`.** `Engine.Tape.Backward` follows the source step by step:
1. it runs the depth-first topological sort with a visited set (`Topo.BuildTopo`);
2. it overwrites the root's grad with 1;
3. it fires the rules in reverse order.

It is proved equal to a specification function, `Engine.BackwardSpec`. The
lemmas in `BackwardFacts` then prove what the pass guarantees:
- every reachable node fires exactly once, consumers before producers, and
  the root first;
- a node's grad is complete by the time its rule fires;
- nodes the root does not reach, and all `data`, are left alone;
- gradients accumulate on top of what the grads held before;
- the pass fails exactly when it reaches a `0 ** n` node with `n <= 0`.
  Python evaluates `0 ** (n - 1)` in that node's rule and raises
  ZeroDivisionError.

**`graph.py`.** `Graph.Trace` collects exactly the reachable nodes, and
exactly the producer-to-consumer edges between them.

**`nn.py`.** Neurons, layers and networks are datatypes over arena indices.
- Construction draws every weight and bias as a fresh leaf.
- Parameter lists are the new nodes in creation order.
- A neuron call builds its graph on the tape, and the model states that
  graph node by node: from the bias, for each zipped pair a leaf when the
  input is a raw number, then one product node and one sum node, added
  left to right, then the activation node, all with
  grad 0 (`NN.NeuronNodes`).
- The layer and network calls are proved against pure functions
  (`NN.NeuronValue`, `NN.LayerValue`, `NN.NetworkValue`) for the values they
  return. That includes the single-output unwrapping and the TypeError that
  follows it.
- One training step zeroes the parameter grads, runs `backward()` on the
  loss node, applies the gradient-descent update and records the history
  entry.

**Chain rule.** `ChainRule.BackwardIsChainRule` states what a completed
pass computes on any graph. Each node ends with its earlier grad (1 for the
root) plus, over every node `v` the root reaches, `v`'s final grad times the
local derivative of `v` with respect to the node. Several consumers, and one
consumer using a node twice, all add up.

`Scenarios` builds small graphs through the tape and proves the gradients
the chain rule gives for them, for example `a * a`, `relu`, `a ** 3`,
`0 ** 0`, and two passes without zeroing in between. `Composed` solves the
chain-rule equations for graphs of several operations:
- the diamond `(a * b) + a`, where `a` has two consumers;
- `(x * 3).tanh()`;
- `a - b`, built as `a + (b * -1)`.

Integers in the source (`grad = 0`, `1 * out.grad`, integer data) are
modelled as reals. An integer exponent `n` is an `int`.

## Model

| member | source | states |
|---|---|---|
| Autograd.Children | Engine.py:11 | The traversal order of `_prev` lists each operand once and holds exactly the node's producer set |
| Autograd.Operands | Engine.py:11 | `_children` of a node, in operand order: none for a leaf, two for a sum or product, one for the unary operators |
| Autograd.Producers | Engine.py:11 | `_prev = set(_children)` |
| Autograd.ProducersOfBinary | Engine.py:11-17 | `_prev` of `a + b` / `a * b` is `{a, b}`; it has one element for `x + x` or `x * x` and two otherwise |
| Autograd.ValidOpsPush | Engine.py:5-12 | Creating a node whose children already exist keeps every producer before its consumer (acyclicity) |
| Autograd.ReachesBelow | Engine.py:110-115 | Everything reachable through `_prev` was created no later than the node it is reached from |
| Autograd.ReachesChild | Engine.py:110-115 | A producer of a reachable node is reachable |
| Rules.Power | Engine.py:43 | `x ** n` for a natural `n` is nonzero when `x` is nonzero |
| Rules.IntPow | Engine.py:43 | `x ** n` for an integer `n` raises ZeroDivisionError exactly when `n < 0` and `x == 0`; otherwise it is `x`^n, or the reciprocal of `x`^-n |
| Rules.Reciprocal | Engine.py:141-145 | `x ** -1` is `1 / x` for nonzero `x` |
| Rules.Bump | Engine.py:21-22 | `grad[i] += d` changes entry `i` by `d` and no other entry |
| Rules.FireRule | Engine.py:19-98 | A rule writes only into the grads of the node's producers; it raises, always with ZeroDivisionError, exactly for a power node with zero base and exponent `<= 0` |
| Rules.FireAll | Engine.py:123-124 | Firing a sequence of rules keeps the number of grads |
| RuleFacts.LeafRuleIsNoOp | Engine.py:10 | A leaf's rule changes no grad |
| RuleFacts.AddRuleAccumulates | Engine.py:19-22 | The add rule adds `out.grad` to each operand; for `x + x` the operand receives `2 * out.grad` |
| RuleFacts.MulRuleAccumulates | Engine.py:32-35 | The mul rule adds `b.data * out.grad` to `a` and `a.data * out.grad` to `b`; for `x * x`, `2 * x.data * out.grad` |
| RuleFacts.PowRuleDerivative | Engine.py:45-47 | For `n >= 1` the pow rule adds `n * x^(n-1) * out.grad` |
| RuleFacts.GateRules | Engine.py:65-85 | relu passes `out.grad` only when its output is positive; linear always passes it |
| RuleFacts.SigmoidRuleReadsOutput | Engine.py:57-60 | The sigmoid rule adds `s * (1 - s) * out.grad`, where `s` is the node's output; no other data is read |
| RuleFacts.TanhRuleUsesCapturedOutput | Engine.py:87-98 | The tanh rule adds `(1 - t*t) * out.grad` for the output `t` captured at construction, whatever the data holds later |
| RuleFacts.FireAllKeeps | Engine.py:123-124 | A grad that is no operand of any fired node keeps its value |
| RuleFacts.FireAllSplit | Engine.py:123-124 | Firing `s + t` is firing `s`, then firing `t` if `s` did not raise |
| RuleFacts.BumpCommutes | Engine.py:21-22 | Two `+=` updates commute |
| RuleFacts.FireRuleShiftsLeaf | Engine.py:19-98 | Adding `d` to a leaf's grad before a rule fires adds `d` after it; whether the rule raises is unchanged |
| RuleFacts.FireAllShiftsLeaf | Engine.py:123-124 | The same as FireRuleShiftsLeaf, for a whole sequence of rules |
| RuleFacts.NotOperandOfLater | Engine.py:110-124 | In a consumers-first order, no node is an operand of a node fired after it |
| RuleFacts.FiredGradIsFinal | Engine.py:122-124 | In a consumers-first order, a node's grad when its rule fires equals its final grad |
| Topo.TopoPrefixClosed | Engine.py:110-115 | A topological prefix holds everything its members reach |
| Topo.TopoPrefixAppend | Engine.py:110-115 | Appending a node after all its producers keeps the list topological |
| Topo.Dfs | Engine.py:110-115 | `build_topo(v)` extends `topo` and keeps it topological. It adds exactly the nodes reachable from `v` that were not listed yet, ends with `v` when `v` was unvisited, and marks every listed node as visited |
| Topo.DfsFrom | Engine.py:113-114 | The loop over `v._prev` from the `i`-th child on adds exactly the nodes those children reach, and never `v` |
| Topo.DfsClose | Engine.py:115 | `topo.append(v)` after the children have been walked gives a topological list of everything `v` reaches |
| Topo.TopoOrder | Engine.py:107-117 | `topo` holds every node reachable from the root exactly once, producers before consumers, with the root last |
| Topo.BuildTopo | Engine.py:110-115 | The recursive method with its visited set computes `Dfs` |
| Topo.TopoSort | Engine.py:107-117 | The sort started from the root with empty `topo` and `visited` yields `TopoOrder` |
| Topo.Reverse | Engine.py:123 | `reversed(topo)` lists the same entries, last first |
| Engine.BackwardSpec | Engine.py:103-124 | The pass keeps one grad per node |
| Engine.Tape.Push | Engine.py:5-12 | A new node is appended with its data, `grad = 0` and its producers; nothing else changes |
| Engine.Tape.NewLeaf | Engine.py:5-12 | `Value(x)` appends a leaf with data `x` and `grad = 0` |
| Engine.Tape.Wrap | Engine.py:16 | A node is used as is; a raw number becomes a fresh leaf |
| Engine.Tape.Add | Engine.py:14-25 | `a + b` appends `AddOp(a, b)` with data `a.data + b.data` and `grad = 0`; a raw `b` is wrapped first |
| Engine.Tape.Mul | Engine.py:27-38 | `a * b` appends `MulOp(a, b)` with data `a.data * b.data`; a raw `b` is wrapped first |
| Engine.Tape.Pow | Engine.py:40-50 | A non-numeric exponent raises AssertionError and builds nothing. Zero to a negative power raises ZeroDivisionError and builds nothing. Otherwise one node `PowOp(a, n)` is appended with grad 0, and its data is what Python's `a.data ** n` gives (`IntPow`) |
| Engine.Tape.Sigmoid | Engine.py:52-63 | data is `1 / (1 + exp(-a.data))`, strictly between 0 and 1 |
| Engine.Tape.Linear | Engine.py:65-74 | data is `a.data` |
| Engine.Tape.Relu | Engine.py:76-85 | data is 0 below zero and `a.data` otherwise |
| Engine.Tape.Tanh | Engine.py:87-101 | data is `(e^2x - 1) / (e^2x + 1)`, strictly between -1 and 1, and that output is what the rule captures |
| Engine.Tape.Neg | Engine.py:126-127 | `-a` is `a * -1`: it appends a leaf holding -1, then `MulOp(a, leaf)` with data `-a.data`, both with grad 0 |
| Engine.Tape.Radd | Engine.py:129-130 | `x + a` is `a + x`: it appends a leaf holding `x`, then `AddOp(a, leaf)` with data `a.data + x`, both with grad 0 |
| Engine.Tape.Sub | Engine.py:132-133 | `a - b` is `a + (-b)`, with data `a.data - b.data`. For a node `b` it appends the leaf -1, `MulOp(b, leaf)` and `AddOp(a, product)`; for a number it appends a leaf holding `-b` and `AddOp(a, leaf)`. Every new grad is 0 |
| Engine.Tape.Rsub | Engine.py:135-136 | `x - a` is `(-a) + x`: it appends the leaf -1, `MulOp(a, leaf)`, a leaf holding `x` and the sum of the two, with data `x - a.data` and every new grad 0 |
| Engine.Tape.Rmul | Engine.py:138-139 | `x * a` is `a * x`: it appends a leaf holding `x`, then `MulOp(a, leaf)` with data `a.data * x`, both with grad 0 |
| Engine.Tape.Div | Engine.py:141-142 | `a / b` is `a * b ** -1`. It raises ZeroDivisionError and builds nothing exactly when `b` is zero. Otherwise it appends `PowOp(b, -1)` for a node `b` (a leaf holding `1 / b` for a number), then `MulOp(a, that)`, with data `1 / b` and `a.data / b` and grads 0 |
| Engine.Tape.Rtruediv | Engine.py:144-145 | `x / a` is `a ** -1` times `x`. It raises ZeroDivisionError and builds nothing exactly when `a.data` is zero. Otherwise it appends `PowOp(a, -1)`, a leaf holding `x` and their product, with data `1 / a.data`, `x` and `x / a.data` and grads 0 |
| Engine.Tape.Backward | Engine.py:103-124 | `backward()` leaves every `data` and producer unchanged, and its grads and outcome are exactly `BackwardSpec` |
| BackwardFacts.ReverseMembers | Engine.py:123 | Reversing keeps the members |
| BackwardFacts.ReverseDistinct | Engine.py:123 | Reversing keeps entries distinct |
| BackwardFacts.ReverseProducerLater | Engine.py:110-124 | In the reversed order every producer of a fired node fires later |
| BackwardFacts.ReverseTopoPrefix | Engine.py:110-124 | Reversing a topological list gives a consumers-first order |
| BackwardFacts.FiringOrderIsConsumersFirst | Engine.py:107-124 | The firing order starts at the root, has each reachable node exactly once, and puts consumers before producers |
| BackwardFacts.ReachedOperands | Engine.py:110-115 | Producers of reached nodes are reached |
| BackwardFacts.BackwardSeedsRoot | Engine.py:120 | After a successful pass the root's grad is 1 |
| BackwardFacts.BackwardFiresCompleteGrads | Engine.py:122-124 | When a node's rule fires, its grad already holds every consumer's contribution |
| BackwardFacts.UnreachedIsNoOperand | Engine.py:113-124 | A node the root does not reach is no operand of any fired node |
| BackwardFacts.BackwardKeepsUnreached | Engine.py:103-124 | Grads of nodes the root does not reach are not changed (they are not reset either) |
| BackwardFacts.FireAllFails | Engine.py:45-47 | Firing stops with ZeroDivisionError exactly when some fired node is a raising power node |
| BackwardFacts.FiredRaisingNodeReached | Engine.py:107-124 | A raising node in the firing order is reachable from the root |
| BackwardFacts.RaisingRuleInOrder | Engine.py:107-124 | The order contains a raising node exactly when the root reaches one |
| BackwardFacts.RaisingNodeFires | Engine.py:123-124 | A raising node in the order is a raising position of the order |
| BackwardFacts.BackwardFailsIff | Engine.py:103-124 | `backward()` raises, always with ZeroDivisionError, exactly when the root reaches `x ** n` with `x.data == 0` and `n <= 0` |
| BackwardFacts.BackwardAccumulatesIntoLeaf | Engine.py:119-124 | The pass adds to a leaf's existing grad: starting it `d` higher ends it `d` higher, with every other grad and the outcome the same |
| BackwardFacts.BackwardOverwritesRoot | Engine.py:120 | The root's previous grad has no effect (`self.grad = 1` overwrites it) |
| BackwardFacts.FireAllLeaves | Engine.py:10 | Firing only leaf rules changes nothing |
| BackwardFacts.LeafReachesItself | Engine.py:110-115 | A leaf reaches nothing but itself |
| BackwardFacts.FiredAfterRootAreLeaves | Engine.py:107-124 | When all of the root's operands are leaves, everything fired after the root is a leaf |
| BackwardFacts.LeavesAfterRoot | Engine.py:107-124 | A distinct list of reached nodes starting at such a root has only leaves after it |
| BackwardFacts.ReachedBelowOneOp | Engine.py:110-115 | Such a root reaches only itself and its operands |
| BackwardFacts.BackwardOneOp | Engine.py:103-124 | With one operation over leaves, the pass is that operation's rule fired once on the seeded grads |
| Graph.ClosedHoldsReached | graph.py:4-9 | A closed collection that holds a node holds everything that node reaches |
| Graph.Build | graph.py:4-9 | `build(v)` only grows `nodes` and `edges`, adds `v`, keeps every edge a real producer edge and every finished node closed, and adds only nodes `v` reaches |
| Graph.Trace | graph.py:2-11 | `nodes` is exactly the set of nodes reachable from the root, the same set `backward()` orders. `(c, v)` is in `edges` exactly when `v` is in `nodes` and `c` is one of `v`'s producers. The traversal reads the tape without changing it |
| NN.NeuronParameters | nn.py:19-21 | A neuron's parameters are its weights in order, then its bias |
| NN.LayerParameters | nn.py:33-38 | The loop with `extend` gives the neurons' parameter lists concatenated in neuron order |
| NN.NetworkParameters | nn.py:53-58 | The loop with `extend` gives the layers' parameter lists concatenated in layer order |
| NN.LayerParamCount | nn.py:33-38 | A layer of `k` neurons with `n` inputs has `k * (n + 1)` parameters |
| NN.LayerParamsPrefix | nn.py:33-38 | The first neurons' parameters are a prefix of the layer's |
| NN.LayerParamAt | nn.py:33-38 | Parameter `j * (n + 1) + m` of a layer is parameter `m` of neuron `j` |
| NN.LayerParamsAppend | nn.py:36-37 | Extending with one more neuron appends its parameters |
| NN.NetworkParamsAppend | nn.py:56-57 | Extending with one more layer appends its parameters |
| NN.NetworkParamCount | nn.py:43-45 | A network with layer sizes `s` has the sum of `s[i+1] * (s[i] + 1)` parameters |
| NN.NewNeuron | nn.py:7-11 | `TinyNeuron(n, act)` creates `n` weight leaves, then a bias leaf, each with a draw in [-1, 1] and grad 0; its parameters are exactly those new nodes in order |
| NN.NewLayer | nn.py:24-26 | `TinyLayer(n, k, act)` has `k` neurons of `n` weights each; its parameters are exactly the new nodes in order |
| NN.HasShapeAppend | nn.py:45 | Appending layer `i`, with `layer_sizes[i]` inputs and `layer_sizes[i+1]` neurons, keeps the network's shape |
| NN.NewNetwork | nn.py:41-45 | With enough activations the network has `len(hidden_layers)` layers of the right shape, and its parameters are the new nodes in order. Fewer activations than layers raise IndexError |
| NN.Activate | nn.py:94-99 | tanh stays in (-1, 1); sigmoid in (0, 1); relu is at least 0 and at least its input, and equals the input when that is positive; linear is the identity |
| NN.WeightedSum | nn.py:15 | The generator `sum` starting at the bias: with no pairs to zip, or with every weight zero, it is the bias |
| NN.WeightedSumStep | nn.py:15 | One more zipped pair adds `w * x` to the running sum |
| NN.WeightedSumTruncates | nn.py:15 | `zip` stops at the shorter of weights and inputs |
| NN.WeightedSumFromBias | nn.py:15 | The bias is added exactly once, at the start of the sum |
| NN.NeuronValue | nn.py:13-17 | What a neuron outputs: tanh in (-1, 1), sigmoid in (0, 1), relu at least 0, and for linear exactly the weighted sum of its weights' data and the inputs from its bias |
| NN.LayerValue | nn.py:28-31 | A layer call raises TypeError exactly when it gets a lone value and has neurons. Otherwise it returns a lone value exactly when it has one neuron, and else the outputs in neuron order |
| NN.NetworkValue | nn.py:47-51 | A network only raises TypeError; with no layers it returns its input |
| NN.NetworkOutputWidth | nn.py:47-51 | If no layer but the last has exactly one neuron, a list input yields the last layer's width of outputs, unwrapped when that width is 1 |
| NN.LoneOutputCannotFeedLayer | nn.py:28-31 | A one-neuron layer followed by a non-empty layer makes the network raise TypeError |
| NN.NeuronValueStable | nn.py:13-17 | Appending nodes to the tape does not change what a neuron computes |
| NN.LayerValueStable | nn.py:28-31 | Appending nodes to the tape does not change what a layer computes |
| NN.Activated | nn.py:16 | The tape with the activation node over the running total appended: one more node, and it becomes the current node |
| NN.StepData | nn.py:15 | The data of the nodes one step appends; the last is `acc + w * x` |
| NN.StepDataOf | nn.py:15 | A raw `x` gives a leaf, then the product and the new total; a node `x` gives the product and the new total |
| NN.Stepped | nn.py:15 | The tape after one step: the product and sum nodes appended, and the current node is the new total |
| NN.Summed | nn.py:15 | The tape after the zipped pairs from `k` on are added, left to right |
| NN.SummedExtends | nn.py:15 | The sum only appends: the tape it starts from is a prefix of its result |
| NN.SummedStep | nn.py:15 | Adding pairs from `k` is one step on pair `k`, then adding pairs from `k + 1` |
| NN.SummedFresh | nn.py:15 | Every node the sum appends has grad 0 |
| NN.SummedExhausted | nn.py:15 | The sum appends nothing exactly when the weights or the inputs are used up |
| NN.SummedValueAdvance | nn.py:15 | One step keeps the running total equal to the weighted sum of the pairs so far |
| NN.SummedValue | nn.py:15 | The total the sum leaves is the bias plus the products of the remaining pairs |
| NN.SummedTotal | nn.py:15 | The node the whole sum leaves holds `WeightedSum` of the bias, weights and inputs |
| NN.Apply | nn.py:16 | The activation appends one node over `a`: its op for `act` (`TanhOp` capturing the output), data the activation of `a.data`, grad 0; it is `Activated` |
| NN.AddProduct | nn.py:15 | One step of the generator sum appends `MulOp(w, x)` (after a leaf for a raw `x`) and then `AddOp(acc, product)`, holding `acc + w * x`, all with grad 0; it is `Stepped` |
| NN.SumNodes | nn.py:15 | The nodes built for the sum are exactly `Summed`: from the bias, one `Stepped` per zipped pair, left to right |
| NN.NeuronCall | nn.py:13-17 | A neuron called on a list returns a node holding the activation of the weighted sum (its nodes are those of `NeuronNodes`). Called on a lone value it raises TypeError and builds nothing |
| NN.NeuronNodes | nn.py:13-17 | For a list input the tape afterwards is exactly the summed tape with the activation node appended, every new node with grad 0, and the output holds `NeuronValue` |
| NN.LayerCall | nn.py:28-31 | The layer call yields exactly what `LayerValue` gives, as nodes |
| NN.NetworkCall | nn.py:47-51 | The network call yields exactly what `NetworkValue` gives, as nodes |
| Training.Zeroed | nn.py:69-70 | After zeroing, exactly the parameters have grad 0 and every other grad is unchanged |
| Training.Descended | nn.py:74-75 | The update keeps one data entry per node |
| Training.DescendedMoves | nn.py:74-75 | The update moves each node by `lr * grad` once for each time it is listed as a parameter (the grads do not change during the loop) |
| Training.DescendedStep | nn.py:74-75 | Each iteration rewrites one parameter's data, `p.data -= lr * p.grad` |
| Training.DescendDistinct | nn.py:74-75 | With distinct parameters, each becomes `data - lr * grad` and nothing else changes |
| Training.RangeDistinct | nn.py:53-58 | Parameters created as consecutive fresh nodes are distinct |
| Training.ZeroGrad | nn.py:69-70 | The zeroing loop leaves the grads equal to `Zeroed`, with data and graph unchanged |
| Training.Descend | nn.py:74-75 | The update loop leaves the data equal to `Descended`, with grads and graph unchanged |
| Training.TrainStep | nn.py:63-77 | One iteration zeroes the parameters' grads and runs `backward()` from the error node. If that succeeds it applies the update and appends `[i + 1, error.data]` to the history. If it raises, the data and history are unchanged |
| Training.StepForgetsOldGrads | nn.py:69-71 | After zeroing, grads left by earlier passes on the parameters do not affect the pass |
| Scenarios.OneOpPass | Engine.py:103-124 | A pass over one operation on leaves is that operation's rule fired on the seeded grads |
| Scenarios.AddPass | Engine.py:19-22 | From `a + b`, each leaf's grad grows by 1 and the root holds 1 |
| Scenarios.AddGrads | Engine.py:14-25 | `(a + b).backward()` gives both leaves grad 1 |
| Scenarios.MulPass | Engine.py:32-35 | From `a * b`, each leaf's grad grows by the other's data |
| Scenarios.MulGrads | Engine.py:27-38 | `(a * b).backward()` gives `a.grad == b.data` and `b.grad == a.data` |
| Scenarios.SquarePass | Engine.py:32-35 | From `a * a`, `a.grad` grows by `2 * a.data` |
| Scenarios.SquareGrad | Engine.py:27-38 | `(a * a).backward()` gives `a.grad == 2 * a.data` |
| Scenarios.ReluPass | Engine.py:80-82 | From `a.relu()`, `a.grad` grows by 1 only when `a.data > 0` |
| Scenarios.ReluGrad | Engine.py:76-85 | `a.relu().backward()` gives `a.grad` 1 for a positive input, 0 otherwise |
| Scenarios.SquarePower | Engine.py:43 | `x ** 2 == x * x` |
| Scenarios.CubePass | Engine.py:45-47 | From `a ** 3`, `a.grad` grows by `3 * a.data^2` |
| Scenarios.CubeGrad | Engine.py:40-50 | `(a ** 3).backward()` gives `a.grad == 3 * a.data^2` |
| Scenarios.ZeroToZerothRaises | Engine.py:40-50 | `Value(0) ** 0` has data 1, and its `backward()` raises ZeroDivisionError with `a.grad` still 0 |
| Scenarios.ZeroReciprocalRaises | Engine.py:43 | `Value(0) ** -1` raises ZeroDivisionError and builds no node |
| Scenarios.AddTwicePass | Engine.py:119-124 | Two passes over `a + b` without zeroing add 2 to each leaf |
| Scenarios.BackwardTwiceAccumulates | Engine.py:119-124 | Calling `backward()` twice leaves grad 2 on each leaf: the engine never resets grads |
| ChainRule.Partial | Engine.py:19-98 | The local derivative of `v` with respect to `u` is 0 unless `u` is one of `v`'s producers |
| ChainRule.FireRuleAddsPartial | Engine.py:19-98 | A rule that does not raise adds `out.grad` times the local derivative into every node |
| ChainRule.BinaryAddsPartial | Engine.py:19-38 | The same for the sum and product rules, including `x + x` and `x * x` |
| ChainRule.CurvedAddsPartial | Engine.py:45-60 | The same for the power and sigmoid rules |
| ChainRule.FlatAddsPartial | Engine.py:65-98 | The same for leaves and the linear, relu and tanh rules |
| ChainRule.Partials | Engine.py:19-98 | The square matrix of all local derivatives |
| ChainRule.PartialsAreRules | Engine.py:19-98 | Every rule adds exactly its row of that matrix |
| ChainRule.FiredGrad | Engine.py:19-98 | The grad of `u` after `v`'s rule fires, when it does not raise |
| ChainRule.RuleAdds | Engine.py:19-98 | A rule that does not raise adds `out.grad` times its matrix entry into each grad |
| ChainRule.InflowCons | Engine.py:123-124 | What a sequence of rules adds into `u` is the first rule's term plus what the rest add |
| ChainRule.FirstRuleStep | Engine.py:123-124 | Firing the first rule of a completed sequence adds its term and leaves its own grad alone |
| ChainRule.FirstNodeKept | Engine.py:123-124 | In consumers-first order, the rules after the first never change the first node's grad |
| ChainRule.ConsumersFirstTail | Engine.py:123-124 | Dropping the first node of a consumers-first order leaves one |
| ChainRule.FireAllChainRule | Engine.py:122-124 | Firing a consumers-first sequence without a raise leaves each grad at its start plus every fired rule's term, each rule using its node's final grad |
| ChainRule.ChainSumEmpty | Engine.py:122-124 | Summing over no nodes gives 0 |
| ChainRule.ChainSumRemove | Engine.py:122-124 | Removing one node from the set removes its term from the sum |
| ChainRule.ChainSumSame | Engine.py:122-124 | Sets that agree on the nodes below the bound give the same sum |
| ChainRule.ChainSumBelowVanishes | Engine.py:110-124 | Nodes at or below `u` consume nothing from `u`, so their terms vanish |
| ChainRule.InflowIsChainSum | Engine.py:122-124 | Summing along a sequence of distinct nodes is summing over its members |
| ChainRule.MembersTail | Engine.py:123 | Dropping the first of distinct entries removes exactly it from the members |
| ChainRule.BackwardIsChainRule | Engine.py:103-124 | After a completed pass each node's grad is its earlier grad (1 for the root) plus, over every node `v` the root reaches, `v.grad` times the local derivative of `v` with respect to it |
| ChainRule.PassWithoutPower | Engine.py:103-124 | A graph without power nodes always completes its pass |
| Composed.FreshAdjoint | Engine.py:103-124 | On a freshly built graph without power nodes the pass completes, and its grads satisfy the chain-rule equations with seed 0 (1 at the root) |
| Composed.RootGrad | Engine.py:120 | The root of a graph whose last node is the root ends with grad 1 |
| Composed.DiamondShape | Engine.py:14-38 | `(a * b) + a` is a valid graph without power nodes, and the root reaches the product |
| Composed.DiamondSolve | Engine.py:14-38 | In `(a * b) + a`, the chain-rule equations give `a.grad == b.data + 1` and `b.grad == a.data` |
| Composed.DiamondPass | Engine.py:14-38 | From `(a * b) + a` on fresh grads the pass completes with those grads |
| Composed.DiamondGrads | Engine.py:14-38 | `(a * b + a).backward()` built through the tape gives `a.grad == b.data + 1`, the contributions of both consumers, and `b.grad == a.data` |
| Composed.TanhChainShape | Engine.py:87-101 | `(a * b).tanh()` is a valid graph without power nodes, and the root reaches the product |
| Composed.TanhChainSolve | Engine.py:87-101 | In `(a * b).tanh()`, each leaf gets `1 - t^2` times the other's data |
| Composed.TanhChainPass | Engine.py:87-101 | From `(a * b).tanh()` on fresh grads the pass completes with those grads |
| Composed.TanhOfTripleGrad | Engine.py:87-101 | `(x * 3).tanh()` built through the tape has output `t` from the exp formula, and `x.grad == 3 * (1 - t^2)` |
| Composed.DifferenceShape | Engine.py:132-133 | `a + (b * -1)` is a valid graph without power nodes, and the root reaches the product |
| Composed.DifferenceSolve | Engine.py:132-133 | In `a + (b * -1)`, the chain-rule equations give `a.grad == 1` and `b.grad` the data of the -1 leaf |
| Composed.DifferencePass | Engine.py:132-133 | From `a + (b * -1)` on fresh grads the pass completes with those grads |
| Composed.DifferenceGrads | Engine.py:132-133 | `(a - b).backward()` built through the tape gives data `a.data - b.data`, `a.grad == 1` and `b.grad == -1` |

## Left out

- Floating point. `data` and `grad` are exact reals. Rounding, infinities, NaN and the OverflowError that `math.exp` raises for large arguments (in `sigmoid` and `tanh`) are not modelled. The strict bounds stated for `Engine.Tape.Sigmoid`, `Engine.Tape.Tanh`, `NN.Activate` and `NN.NeuronValue` hold only over the reals: in floating point `1 / (1 + exp(-x))` is exactly 1.0 for `x` above about 37, and the tanh formula is exactly 1.0 or -1.0 for `|x|` above about 19.
- `math.exp` is a parameter `exp` of the members that need it. The only assumption about it is that it is positive. The forward values of `sigmoid` and `tanh` are stated in terms of it.
- `**` with a float exponent. Exponents are integers (`IntPower`) or the non-numeric case that fails the assertion. A float exponent, and the complex results Python gives for a negative base, are not modelled.
- The `_op` tag strings, `__repr__`, and the `label` that `Draw` reads are not modelled. They carry no behaviour of the engine.
- The iteration order of the Python set `_prev` is not modelled. The model walks a node's distinct operands in operand order. The properties of the order itself (exactly once, producers first, root last), the set of nodes and edges, whether the pass raises, and the grads of a completed pass hold for any order. After a raising pass, which rules fired before the raise depends on the order, and the grads `Engine.Tape.Backward` states are those of the model's operand-order walk. The concrete `topo` list may differ from CPython's.
- Recursion depth. CPython's RecursionError for very deep graphs in `build_topo` and in `Trace`'s `build` is not modelled.
- `Draw` (graph.py:13-34) and the `Draw(error)` call at the end of `train` are not modelled. They only render a graphviz picture.
- `plot` and `predict` are not modelled. They use matplotlib or only read `data` back.
- `random.uniform(-1, 1)` is not modelled as random. Each draw is a parameter `draw(i)` for the leaf that becomes node `i`, with `draw(i)` in [-1, 1].
- The name-to-activation dictionary (nn.py:94-99) is a closed enum `Activation`. The KeyError for an unknown name cannot arise.
- Within `train`, the model has no forward pass over `X` and no call to the user's `loss_function`. Those produce an arbitrary error node, which `Training.TrainStep` takes as a parameter. The loop over `iterations` is one `TrainStep` per iteration.
- NN.NewNetwork: when IndexError is raised, the model does not say what the layers already built leave on the tape. It only says that they are fresh leaves and that the error is raised.
- Engine.BackwardSpec: its own contract only says that there is one grad per node. What the pass computes is stated by the lemmas in `BackwardFacts`.
- Rules.FireAll: its own contract only keeps the number of grads. What firing does is stated by the lemmas in `RuleFacts` and `BackwardFacts`.
- Autograd.Operands: it has no contract of its own. What it lists is stated by `Autograd.Children` and `Autograd.ProducersOfBinary`.
- Autograd.Producers: it has no contract of its own. Its members are stated by `Autograd.Children` and `Autograd.ProducersOfBinary`.
- NN.NeuronCall: its own contract states the output value and the TypeError. The nodes it appends are stated by `NN.NeuronNodes`, which it calls for a list input.
- NN.LayerCall: states the values of the output nodes, not every node the neurons append. Each neuron's nodes are those of `NN.NeuronNodes`.
- NN.NetworkCall: states the values of the output nodes, not every node the layers append.
- NN.Activated: its own contract gives the node count and the current node. Its op, data and zero grad are its definition, which `NN.Apply` and `NN.NeuronNodes` use.
- NN.Stepped: its own contract gives the node count and the current node. Its ops, data and grads are its definition; the data is stated by `NN.StepData` and `NN.StepDataOf`, the grads by `NN.SummedFresh`.
- NN.Summed: its own contract keeps the tape well formed. What it appends is stated by `NN.SummedExtends`, `NN.SummedStep`, `NN.SummedFresh`, `NN.SummedExhausted` and `NN.SummedValue`.
- Training.Descended: its own contract only keeps the length. What the update does is stated by `Training.DescendedMoves` and `Training.DescendDistinct`.
- Python objects and their identity. A `Value` is named by its arena index. Reclaiming unreferenced graphs between iterations is not modelled: the tape only grows.
- `setup.py` is packaging metadata and is not part of this model.
