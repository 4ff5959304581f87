# micrograd in Dafny

This project models the scalar reverse-mode automatic-differentiation engine of
go-micrograd (`micrograd/engine.go`) and the two layers built on it: neurons,
layers and multi-layer perceptrons (`micrograd/nn.go`), and the mean-squared-error,
hinge and binary cross-entropy losses (`micrograd/loss.go`).

Go allocates every `*Value` on the heap, and nodes point at their operands.
The model keeps all nodes in an arena instead: a `Graph` object owns the sequence
of every node allocated so far. A pointer is an index into that sequence. Every
operation appends the nodes it builds and leaves existing nodes untouched, so an
operand's index is always smaller than the index of the node built from it. That
ordering makes the graph acyclic and gives the depth-first search its
termination measure.

The backward closure of a Go node becomes an `Op` tag:
- Leaf;
- Add(a, b) and Mul(a, b);
- Pow(a, p);
- Log(a), ReLU(a), Tanh(a) and Sigmoid(a).

`Delta(m, g, p, n)` is the amount that the rule of node `p` adds to the `Grad`
of node `n`. When one node fills both operand slots of Add or Mul, it receives
both contributions.

Files:
- `engine.dfy`, module `Engine`:
  - the node model;
  - the forward formulas;
  - the `Graph` class with one method per `Value` operation;
  - the depth-first topological sort (`Visit`, `VisitChildren`, `BuildTopo`);
  - `Graph.Backward`, which seeds the root, sorts, then runs the rules in reverse order.
- `adjoint.dfy`, module `Adjoint`: what `Backward` computes.
  - The adjoint equation: each node ends with its starting gradient plus what its consumers' rules added to it.
  - The frame conditions.
  - One lemma per rule that reads off an operand's gradient when that operand has a single consumer.
- `nn.dfy`, module `NN`:
  - `Neuron`, `Layer` and `MLP`, which hold arena indices of their parameters;
  - their constructors, `Forward` methods and `Parameters` methods;
  - `ZeroGrad`.
  - Forward passes are specified twice: by pure evaluators (`NeuronEval`, `LayerEval`, `MLPEval`) over the input values, and by the exact nodes they append (`NeuronNodes`, `LayerRun`, `MLPRun`).
- `loss.dfy`, module `Loss`:
  - the three losses as methods that append to the graph;
  - the exact nodes each one builds (`MSENodes`, `HingeNodes`, `BCENodes`);
  - the value of the final node.
- `loss_grad.dfy`, module `LossGradients`: the gradient that `Backward` from the MSE loss leaves on each prediction.
- `hinge_grad.dfy`, module `HingeGradients`: the same for the hinge loss.
- `scenarios.dfy`, module `Scenarios`: small worked graphs, with the values and gradients `Backward` gives them.

Transcendental functions are not computed. `math.Log`, `math.Tanh`, `math.Exp`
and `math.Pow` at non-integer or negative exponents are fields of a `Libm`
record that the graph is created with. `math.Pow` at a non-negative integer
exponent is computed exactly (`IntPow`). `rand.NormFloat64` is a parameter
`rand: nat -> real`, indexed by the arena slot the weight occupies.

Two behaviours of the code are worth stating on their own:
- `Backward` overwrites only the root's `Grad` (`engine.go:141`) and does not
  reset interior gradients. Interior nodes keep the gradient of the first call
  and pass it on again, so a second call without `ZeroGrad` does not simply
  double a leaf's gradient. `Scenarios.BackwardTwice` shows a leaf that holds 1
  after the first call and 3 after the second.
- The Log rule divides by the operand's own `Data + 1e-4` (`engine.go:97`), not
  by the clamped forward value. `Scenarios.LogAtZero` gives the gradient 10000
  at input 0, where the forward value is clamped to -100.

## Model

| member | source | states |
|---|---|---|
| Engine.Graph.constructor | micrograd/engine.go:16-22 | a new graph has no nodes |
| Engine.Graph.NewValue | micrograd/engine.go:16-18 | appends one node with the given `Data` and op and `Grad` 0; nothing else changes |
| Engine.Graph.NewLeafValue | micrograd/engine.go:20-22 | appends a leaf with `Grad` 0 and no children; its rule adds 0 to every node |
| Engine.Graph.MatrixToValues | micrograd/engine.go:24-34 | the result has the shape of `x`; cell (i, j) is a fresh leaf with `Data` `x[i][j]` and `Grad` 0, allocated row after row; distinct cells are distinct nodes |
| Engine.MatrixCells | micrograd/engine.go:26-30 | laying the rows out one after another gives each cell its own slot, holding a leaf with that cell's number |
| Engine.FlattenCell | micrograd/engine.go:26-30 | cell (i, j) sits at the offset of row i plus j in the row-by-row layout |
| Engine.Graph.Lift | micrograd/engine.go:41-49 | a node operand is used as is; a float or int literal becomes a fresh leaf holding it |
| Engine.Graph.Add | micrograd/engine.go:40-58 | appends (after lifting the operand) a node with `Data` v + o, children [v, o] in that order and `Grad` 0; existing nodes are unchanged |
| Engine.Graph.Mul | micrograd/engine.go:64-82 | appends (after lifting the operand) a node with `Data` v * o, children [v, o] and `Grad` 0; existing nodes are unchanged |
| Engine.Graph.Neg | micrograd/engine.go:60-62 | is Mul by a fresh -1 leaf: appends the leaf and the product, whose `Data` is -v |
| Engine.Graph.Pow | micrograd/engine.go:84-91 | appends a node with `Data` math.Pow(v, p), which is exact for non-negative integer p |
| Engine.Power | micrograd/engine.go:85-87 | math.Pow(x, 0) is 1 and math.Pow(x, 1) is x: the factor x^(p-1) that the Pow rule evaluates for p = 1 and p = 2 |
| Engine.PowerSquare | micrograd/engine.go:124 | math.Pow(x, 2.0), used by the Tanh rule and by MSE, is exactly x·x |
| Engine.Graph.Log | micrograd/engine.go:93-101 | appends a node whose `Data` is max(log v, -100) |
| Engine.ClampedLog | micrograd/engine.go:95 | the clamped log is at least -100 and is either log x or -100 |
| Engine.Graph.ReLU | micrograd/engine.go:103-118 | appends a node whose `Data` is v when v > 0 and 0 otherwise |
| Engine.Relu | micrograd/engine.go:104-109 | the ReLU value is never negative and is either the input or 0 |
| Engine.Graph.Tanh | micrograd/engine.go:120-128 | appends a node whose `Data` is tanh v |
| Engine.Graph.Sigmoid | micrograd/engine.go:130-138 | appends a node whose `Data` is 1 / (1 + e^-v) |
| Engine.Logistic | micrograd/engine.go:131 | the sigmoid value lies strictly between 0 and 1 |
| Engine.LogRuleGrad | micrograd/engine.go:97 | the Log rule's amount times (v.Data + 1e-4) gives back out.Grad whenever that divisor is not 0 |
| Engine.Delta | micrograd/engine.go:52-137 | the amount each backward closure adds to the `Grad` of a given node; `Engine.ApplyAdd` … `Engine.ApplySigmoid` read it off per rule |
| Engine.ApplyAdd | micrograd/engine.go:52-55 | the Add rule adds out.Grad to the first operand, then to the second, and changes nothing else |
| Engine.ApplyMul | micrograd/engine.go:76-79 | the Mul rule adds out.Grad · other.Data to the first operand, then out.Grad · v.Data to the second, both read before either update |
| Engine.ApplyPow | micrograd/engine.go:86-88 | the Pow rule adds out.Grad · (p · math.Pow(v.Data, p - 1)) to the operand |
| Engine.ApplyLog | micrograd/engine.go:96-98 | the Log rule adds out.Grad / (v.Data + 1e-4) to the operand |
| Engine.ApplyRelu | micrograd/engine.go:111-115 | the ReLU rule adds out.Grad when v.Data > 0 and leaves the arena unchanged otherwise |
| Engine.ApplyTanh | micrograd/engine.go:123-125 | the Tanh rule adds (1 - out.Data²) · out.Grad to the operand |
| Engine.ApplySigmoid | micrograd/engine.go:133-135 | the Sigmoid rule adds out.Grad · out.Data · (1 - out.Data) to the operand |
| Engine.Graph.RunRule | micrograd/engine.go:52-137 | running a node's backward rule turns the arena into `Apply` of it: the operands' `Grad` grow by the rule's amounts and nothing else changes |
| Engine.Apply | micrograd/engine.go:52-137 | running one rule keeps every node's `Data` and op, and the arena invariant |
| Engine.DeltaOnlyToChildren | micrograd/engine.go:52-137 | a rule adds nothing to a node that is not one of its operands |
| Engine.DeltaFrame | micrograd/engine.go:52-137 | what a rule adds depends only on its node's own `Grad` and on `Data`, never on other gradients |
| Engine.ApplyOne | micrograd/engine.go:86-137 | a one-operand rule adds its amount to that operand's `Grad` and changes nothing else |
| Engine.ApplyTwo | micrograd/engine.go:52-79 | an Add or Mul rule adds to the first operand, then to the second; one node in both slots receives both amounts |
| Engine.ReachClosed | micrograd/engine.go:153-155 | an operand of a node the root reaches is itself reached |
| Engine.VisitChildren | micrograd/engine.go:153-155 | visiting the children in order marks and appends exactly what they reach, keeping the list duplicate-free and children-first |
| Engine.Visit | micrograd/engine.go:147-157 | the DFS marks and appends exactly what `node` reaches; it only extends the list; the list stays duplicate-free with children before parents; an unvisited `node` ends the list |
| Engine.BuildTopo | micrograd/engine.go:144-158 | the list holds every node the root reaches, exactly once, children before parents, with the root last |
| Engine.Graph.Backward | micrograd/engine.go:140-164 | the new arena is the seeded one after each listed rule runs once, last listed first, for a topological order of the root |
| Engine.Seed | micrograd/engine.go:141 | the root's `Grad` becomes 1 (overwritten, not added) and no other node changes |
| Engine.Rules | micrograd/engine.go:161-163 | running any list of rules keeps every `Data` and op |
| Adjoint.RulesAdjoint | micrograd/engine.go:161-163 | when the rules run consumers first, each node ends with its starting `Grad` plus the sum of what every listed rule adds to it, computed from that rule's final gradient |
| Adjoint.BackwardAdjoint | micrograd/engine.go:140-164 | after Backward, every node's `Grad` is its seeded value plus what the rules of all reachable consumers add to it |
| Adjoint.BackwardFrame | micrograd/engine.go:140-164 | Backward changes no `Data`; the root's `Grad` ends at 1; a node the root does not reach is unchanged |
| Adjoint.GradOfSoleParent | micrograd/engine.go:161-163 | a node whose only reachable consumer is `q` ends with its old `Grad` plus `q`'s rule applied to `q`'s final gradient |
| Adjoint.BackwardBackpropagated | micrograd/engine.go:140-164 | the arena Backward leaves satisfies the single-consumer gradient equations for every node below the root |
| Adjoint.AddGrad | micrograd/engine.go:52-55 | a sole-consumer Add passes its full gradient to the operand |
| Adjoint.MulGrad | micrograd/engine.go:76-79 | a sole-consumer Mul passes its gradient times the other operand's `Data` |
| Adjoint.PowGrad | micrograd/engine.go:86-88 | a sole-consumer Pow passes its gradient times p·v^(p-1) |
| Adjoint.ReluGrad | micrograd/engine.go:111-115 | a sole-consumer ReLU passes its gradient only when the operand's `Data` is positive |
| Scenarios.TopoOfTwo | micrograd/engine.go:144-158 | the only topological order of a one-operation graph is [leaf, root] |
| Scenarios.TopoOfChain | micrograd/engine.go:144-158 | the only topological order of a chain leaf → u → root is that chain |
| Scenarios.RulesOfTwo | micrograd/engine.go:161-163 | on [leaf, root], the root's rule runs and the leaf's rule changes nothing |
| Scenarios.RulesOfChain | micrograd/engine.go:161-163 | on a chain, the middle node's rule reads the gradient the root's rule gave it |
| Scenarios.Square | micrograd/engine.go:64-82 | x = 2, y = x·x: y = 4 and Backward leaves x.Grad = 4, from both operand slots |
| Scenarios.ReluNegative | micrograd/engine.go:103-118 | ReLU of -3 is 0 and Backward leaves the leaf's `Grad` at 0 |
| Scenarios.SigmoidAtZero | micrograd/engine.go:130-138 | sigmoid(0) = 0.5 and its gradient is 0.25 |
| Scenarios.LogAtZero | micrograd/engine.go:93-101 | Log of 0 is clamped to -100 and its rule still passes 1 / (0 + 1e-4) = 10000 |
| Scenarios.BackwardTwice | micrograd/engine.go:140-142 | a second Backward on a ReLU chain without zeroing moves the leaf's `Grad` from 1 to 3 |
| NN.NewNeuron | micrograd/nn.go:22-32 | allocates `numInputs` fresh weight leaves drawn from `rand`, then a bias leaf of 0; the neuron's parameters are exactly the new slots |
| NN.NewLayer | micrograd/nn.go:67-75 | `numOutputs` neurons of `numInputs` weights with the given activation; its parameters are exactly the new slots, in order |
| NN.NewMLP | micrograd/nn.go:97-116 | fails, allocating nothing, unless the last size is 1; otherwise layer i has `layerSizes[i]` neurons of `layerDims[i]` inputs, relu except for a sigmoid last layer |
| NN.NeuronParameters | micrograd/nn.go:60-65 | the weights in order, then the bias: length `len(Weights)+1` |
| NN.LayerParameters | micrograd/nn.go:89-95 | the neurons' parameters concatenated in order |
| NN.MLPParameters | micrograd/nn.go:136-142 | the layers' parameters concatenated in order |
| NN.MLPParamsIn | micrograd/nn.go:136-142 | every parameter of a network is a node of the arena |
| NN.Activate | micrograd/nn.go:45-56 | the activation succeeds exactly for "relu", "tanh", "sigmoid" and ""; any other tag is the unsupported-activation error |
| NN.NeuronEval | micrograd/nn.go:34-58 | a neuron fails with the dimension error exactly when the input length differs from the weight count, and fails at all exactly when that or the tag is wrong |
| NN.NeuronForward | micrograd/nn.go:34-58 | appends exactly `NeuronNodes` and returns its last node, which holds Σ w[i]·x[i] + b wrapped in the activation (`NeuronEval`'s value); otherwise returns `NeuronEval`'s error; fails exactly when the input length or the tag is wrong; a wrong input length appends nothing; existing nodes are unchanged |
| NN.WeightedSum | micrograd/nn.go:40-44 | the running sum of w[i]·x[i] is 0 when every input is 0 and when every weight is 0 |
| NN.SumPrefix | micrograd/nn.go:40-43 | the accumulator leaf and the first k loop steps are 2k + 1 nodes, the last holding the accumulator Σ_{i<k} w[i]·x[i] |
| NN.DotWeightedSum | micrograd/nn.go:41-43 | the dot product of the weight and input nodes is the `WeightedSum` of the input values |
| NN.SumProducts | micrograd/nn.go:40-43 | `NewLeafValue(0)` and the loop append exactly `SumPrefix` for all inputs and return the accumulator |
| NN.AddProduct | micrograd/nn.go:42 | one loop step `act.Add(w.Mul(x))` appends the Mul node w·x and the Add node act + w·x, and nothing else |
| NN.NeuronSum | micrograd/nn.go:40-44 | the loop's nodes and then the Add of the bias, 2·len(x) + 2 nodes, the last holding the pre-activation value |
| NN.PreActivation | micrograd/nn.go:40-44 | appends exactly `NeuronSum`; the accumulator holds the weighted sum of the inputs plus the bias |
| NN.ActivationNodes | micrograd/nn.go:45-56 | the activation appends one node exactly for "relu", "tanh" and "sigmoid", built on the pre-activation node and holding `Activate`'s value; none for "" or an unknown tag |
| NN.Activation | micrograd/nn.go:45-56 | applies the activation named by the tag, appending `ActivationNodes`, or fails for an unknown tag |
| NN.NeuronNodes | micrograd/nn.go:34-56 | the nodes Neuron.Forward appends are empty exactly when the input length is wrong |
| NN.NeuronNodesValue | micrograd/nn.go:40-57 | when `NeuronEval` succeeds, the last appended node holds its value |
| NN.NeuronNodesLength | micrograd/nn.go:40-51 | a neuron with n inputs appends 2n + 2 nodes, plus one for relu, tanh and sigmoid |
| NN.NeuronNodesExtends | micrograd/nn.go:40-44 | the nodes a neuron appends read only its parameters and inputs, so they are the same on any extension of the arena |
| NN.NeuronNodesOf | micrograd/nn.go:40-56 | the loop's nodes, the bias Add and the activation node together are `NeuronNodes` |
| NN.LayerEval | micrograd/nn.go:77-87 | a layer succeeds exactly when every neuron does, with output i the value of neuron i; on failure it carries the error of the first failing neuron |
| NN.LayerForward | micrograd/nn.go:77-87 | appends exactly `LayerRun`'s nodes, each neuron's `NeuronNodes` in turn through the first failing neuron, and fails exactly when the run does; on success returns the run's output nodes, which hold the values `LayerEval` gives; otherwise returns `LayerEval`'s error; existing nodes are unchanged |
| NN.LayerNeuron | micrograd/nn.go:79-84 | one loop step: neuron i appends its `NeuronNodes` on the arena the first i left, extending the layer's run by one neuron |
| NN.LayerEvalFailsEarly | micrograd/nn.go:80-83 | once a neuron fails, the whole layer fails with that error |
| NN.LayerRunFails | micrograd/nn.go:79-83 | the layer's run fails exactly when some neuron has the wrong input length or tag |
| NN.LayerRunOuts | micrograd/nn.go:78-86 | a run that does not fail has one output per neuron, each a node the layer appended |
| NN.LayerRunSnoc | micrograd/nn.go:79-84 | after i neurons that did not fail, neuron i's `NeuronNodes` on the arena they left extend the run to i + 1 neurons, adding its last node as output |
| NN.LayerRunFailsEarly | micrograd/nn.go:80-83 | after the first failing neuron the run appends nothing more |
| NN.MLPEval | micrograd/nn.go:118-128 | no layers give back the input; otherwise a success has one value per neuron of the last layer; every failure is the dimension or the activation error |
| NN.MLPOutput | micrograd/nn.go:118-134 | succeeds exactly when the layers succeed with one value, and returns that value; a success from a non-empty network means a one-neuron last layer; the only errors are the dimension, activation and output-size errors |
| NN.MLPForward | micrograd/nn.go:118-134 | appends exactly `MLPRun`'s nodes, each layer's `LayerRun` on the previous layer's output nodes; fails exactly when a layer fails or the last outputs are not one node; otherwise returns that node, which holds `MLPOutput`'s value; the error is `MLPOutput`'s |
| NN.MLPEvalFailsEarly | micrograd/nn.go:122-125 | once a layer fails, the network fails with that error |
| NN.MLPRunSnoc | micrograd/nn.go:121-126 | after i layers that did not fail, layer i's `LayerRun` on their outputs, on the arena they left, extends the network's run to i + 1 layers |
| NN.MLPRunFailsEarly | micrograd/nn.go:122-125 | after the first failing layer the network appends nothing more |
| NN.ShapedLayersSucceed | micrograd/nn.go:97-134 | a network built by NewMLP, given an input of `numInputs` values, never fails on a layer, and layer k yields `layerDims[k]` values |
| NN.ShapedOutput | micrograd/nn.go:97-134 | a network built by NewMLP returns one value, strictly between 0 and 1 |
| NN.ZeroGrad | micrograd/nn.go:144-148 | every parameter's `Grad` becomes 0; no `Data` and no other node's `Grad` changes |
| Loss.AddSquaredError | micrograd/loss.go:8 | one loop step appends the five nodes for `loss.Add(ytrue[i].Add(ypred[i].Neg()).Pow(2))` |
| Loss.Scale | micrograd/loss.go:10 | the closing `loss.Mul(c)` appends the leaf c and the product |
| Loss.MSETermSquare | micrograd/loss.go:8 | the sample's term, built as (y + p·(-1))², is (y - p)² |
| Loss.MSE | micrograd/loss.go:5-11 | appends exactly the nodes `MSENodes` lists and returns the last one; input nodes are unchanged |
| Loss.MSESumSquares | micrograd/loss.go:7-9 | the accumulated sum is the sum of the squared errors (y - p)², which is non-negative |
| Loss.MSEValue | micrograd/loss.go:5-11 | the loss node holds Σ (ytrue[i] - ypred[i])² / n, which is non-negative |
| Loss.AddHingeTerm | micrograd/loss.go:16-17 | one loop step appends the seven nodes for `ytrue[i].Neg().Mul(ypred[i]).Add(1).ReLU()` and the accumulation |
| Loss.HingeTermMargin | micrograd/loss.go:16 | the sample's term is max(0, 1 - y·p) |
| Loss.HingeLoss | micrograd/loss.go:13-20 | appends exactly the nodes `HingeNodes` lists and returns the last one; input nodes are unchanged |
| Loss.HingeSumMargins | micrograd/loss.go:15-18 | the accumulated sum is Σ max(0, 1 - y·p), which is non-negative |
| Loss.HingeValue | micrograd/loss.go:13-20 | the loss node holds Σ max(0, 1 - ytrue[i]·ypred[i]) / n, which is non-negative |
| Loss.LogTerm | micrograd/loss.go:25 | appends `ypred[i].Log()` and its product with ytrue[i] |
| Loss.OneMinus | micrograd/loss.go:25 | `v.Neg().Add(1)` appends four nodes, the last holding 1 - v |
| Loss.ComplementTerm | micrograd/loss.go:25 | appends the nodes for `ytrue[i].Neg().Add(1).Mul(ypred[i].Neg().Add(1).Log())` |
| Loss.AddCrossEntropyTerm | micrograd/loss.go:25-26 | one loop step appends the fourteen nodes of the sample's term and the accumulation |
| Loss.BCEPrefixStep | micrograd/loss.go:24-27 | one more loop step extends the nodes of the first i samples to those of the first i + 1 |
| Loss.CrossEntropySum | micrograd/loss.go:23-27 | the loop appends exactly the nodes of all samples, in order |
| Loss.BinaryCrossEntropy | micrograd/loss.go:22-29 | appends exactly the nodes `BCENodes` lists and returns the last one; input nodes are unchanged |
| Loss.BCESumLikelihood | micrograd/loss.go:24-27 | the accumulated sum is Σ [y·L(p) + (1 - y)·L(1 - p)] with L the clamped log |
| Loss.BCEValue | micrograd/loss.go:22-29 | the loss node holds -(1/n)·Σ [y·L(p) + (1 - y)·L(1 - p)] |
| LossGradients.MSEGradient | micrograd/loss.go:5-11 | for distinct leaf inputs with zero `Grad`, Backward from the MSE node leaves ypred[i].Grad = -2 (ytrue[i] - ypred[i]) / n |
| HingeGradients.HingeGradient | micrograd/loss.go:13-20 | for distinct leaf inputs with zero `Grad`, Backward from the hinge node leaves ypred[i].Grad = -ytrue[i] / n when 1 - ytrue[i]·ypred[i] > 0, and 0 otherwise |

## Left out

- Floating point: `Data` and `Grad` are reals. Rounding, infinities and NaN are not modelled, including the division by zero that an empty loss input causes in Go.
- `math.Log`, `math.Tanh`, `math.Exp` and `math.Pow` at non-integer or negative exponents are parameters (`Libm`), not computed. The only facts used about them are that `exp` is positive and what `Scenarios.SigmoidAtZero` and `Scenarios.LogAtZero` assume at 0.
- Engine.LogRuleGrad: Go divides by `Data + 1e-4` even when that is 0 and produces an infinity or NaN. The model adds 0 in that case.
- Gradients of the Log, Tanh and Sigmoid rules after a full Backward are only stated through the adjoint equation, the one-step lemmas `Engine.ApplyLog`, `Engine.ApplyTanh` and `Engine.ApplySigmoid`, and `Scenarios`. There are no sole-consumer lemmas like `Adjoint.AddGrad` for them.
- Engine.Graph.NewValue: the model merges allocation with the rule that the calling operation installs. The no-op backward closure that a bare `NewValue` installs (`engine.go:17`) is not represented separately; it acts like the `Leaf` rule, which adds nothing.
- Engine.Logistic and NN.ShapedOutput: the bounds 0 < sigmoid(x) < 1 hold over the reals only. In float64, `1.0 / (1.0 + math.Exp(-x))` rounds to exactly 1.0 above about x = 37 and to 0.0 below about x = -745.
- HingeGradients.HingeGradient and LossGradients.MSEGradient: stated only when every input is a leaf that feeds nothing else and has a zero gradient. A shared or computed input gets the sum that `Adjoint.BackwardAdjoint` gives.
- The gradient of BinaryCrossEntropy is not modelled beyond the adjoint equation. It runs through two Log rules with the 1e-4 offset and has no closed form worth stating.
- Loss.MSE, Loss.BinaryCrossEntropy: require `0 < len(ytrue) <= len(ypred)`. Loss.HingeLoss requires `0 < len(ypred) <= len(ytrue)`. Go panics on a shorter second slice and divides by zero on an empty one.
- NN.NewMLP: requires a non-empty `layerSizes`, on which Go panics.
- NN.NewNeuron, NN.NewLayer, NN.NewMLP: sizes are `nat`. A negative `numInputs` or `numOutputs` makes Go's `make` panic (`nn.go:23`, `nn.go:68`). A negative last entry of `layerSizes` is not 1, so `NewMLP` returns the single-output error (`nn.go:98-100`). A negative inner entry reaches `make` and panics.
- The Go type switch in Add and Mul leaves the operand nil for types other than `*Value`, `float64` and `int`, and then panics. The `Operand` datatype admits only a node or a number.
- `Value.Print` and the `op` label strings, including the `fmt.Sprintf` label of Pow, are debugging output.
- Random initialisation: `rand.NormFloat64` is the parameter `rand`, with no distribution.
- Pointer identity and garbage collection: a node is its arena index, and nothing is ever freed.
- `datasets/moon.go` (random synthetic data) and `main.go` (the training driver with its console output) are not part of this model.
