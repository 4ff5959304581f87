/**
 * The neuron, layer and multi-layer perceptron of micrograd/nn.go.
 *
 * A Neuron, Layer and MLP are never changed after they are built: they hold
 * arena indices of their parameter nodes (weights and bias), whose `Data`
 * and `Grad` live in the `Graph`.  Building them and running them forward
 * allocates nodes in the graph; `ZeroGrad` overwrites parameter gradients.
 */
module NN {
  import opened Engine

  /** A value, or the message of the Go `error` returned instead. */
  datatype Result<T> = Ok(value: T) | Err(msg: string)

  const DimensionError: string := "input data doesn't match expected dimensions"
  const ActivationError: string := "unsupported activation function"
  const OutputSizeError: string := "expected output to only have one value"
  const OutputLayerError: string := "only single neuron ouput MLPs are supported"

  datatype Neuron = Neuron(weights: seq<nat>, bias: nat, activation: string)
  datatype Layer = Layer(neurons: seq<Neuron>)
  datatype MLP = MLP(layers: seq<Layer>)

  // ---------------------------------------------------------------------------
  // Where the parameters live
  // ---------------------------------------------------------------------------

  predicate NeuronIn(g: Arena, n: Neuron)
  {
    AllIn(g, n.weights) && n.bias < |g|
  }

  predicate LayerIn(g: Arena, l: Layer)
  {
    forall i :: 0 <= i < |l.neurons| ==> NeuronIn(g, l.neurons[i])
  }

  predicate MLPIn(g: Arena, mlp: MLP)
  {
    forall i :: 0 <= i < |mlp.layers| ==> LayerIn(g, mlp.layers[i])
  }

  /** The indices lo, lo+1, ..., hi-1. */
  function Range(lo: nat, hi: nat): seq<nat>
    requires lo <= hi
  {
    seq(hi - lo, i requires 0 <= i < hi - lo => lo + i)
  }

  // ---------------------------------------------------------------------------
  // Parameters
  // ---------------------------------------------------------------------------

  /** Neuron.Parameters: the weights, then the bias. */
  function NeuronParameters(n: Neuron): (ps: seq<nat>)
    ensures |ps| == |n.weights| + 1 && ps[..|n.weights|] == n.weights && ps[|n.weights|] == n.bias
  {
    n.weights + [n.bias]
  }

  /** The parameters of `ns`, neuron after neuron. */
  function LayerParams(ns: seq<Neuron>): seq<nat>
    decreases |ns|
  {
    if ns == [] then [] else LayerParams(ns[..|ns| - 1]) + NeuronParameters(ns[|ns| - 1])
  }

  /** The parameters of `ls`, layer after layer. */
  function MLPParams(ls: seq<Layer>): seq<nat>
    decreases |ls|
  {
    if ls == [] then [] else MLPParams(ls[..|ls| - 1]) + LayerParams(ls[|ls| - 1].neurons)
  }

  /** Layer.Parameters: the loop appending each neuron's parameters. */
  method LayerParameters(l: Layer) returns (ps: seq<nat>)
    ensures ps == LayerParams(l.neurons)
  {
    ps := [];
    for i := 0 to |l.neurons|
      invariant ps == LayerParams(l.neurons[..i])
    {
      assert l.neurons[..i + 1][..i] == l.neurons[..i];
      ps := ps + NeuronParameters(l.neurons[i]);
    }
    assert l.neurons[..|l.neurons|] == l.neurons;
  }

  /** MLP.Parameters: the loop appending each layer's parameters. */
  method MLPParameters(mlp: MLP) returns (ps: seq<nat>)
    ensures ps == MLPParams(mlp.layers)
  {
    ps := [];
    for i := 0 to |mlp.layers|
      invariant ps == MLPParams(mlp.layers[..i])
    {
      assert mlp.layers[..i + 1][..i] == mlp.layers[..i];
      var lp := LayerParameters(mlp.layers[i]);
      ps := ps + lp;
    }
    assert mlp.layers[..|mlp.layers|] == mlp.layers;
  }

  lemma {:induction false} LayerParamsIn(g: Arena, ns: seq<Neuron>)
    requires LayerIn(g, Layer(ns))
    ensures AllIn(g, LayerParams(ns))
    decreases |ns|
  {
    if ns != [] {
      LayerParamsIn(g, ns[..|ns| - 1]);
    }
  }

  lemma {:induction false} MLPParamsIn(g: Arena, ls: seq<Layer>)
    requires MLPIn(g, MLP(ls))
    ensures AllIn(g, MLPParams(ls))
    decreases |ls|
  {
    if ls != [] {
      MLPParamsIn(g, ls[..|ls| - 1]);
      LayerParamsIn(g, ls[|ls| - 1].neurons);
    }
  }

  // ---------------------------------------------------------------------------
  // What the forward passes compute
  // ---------------------------------------------------------------------------

  /** w[0]*x[0] + ... + w[k-1]*x[k-1], accumulated from 0 as Neuron.Forward does. */
  function WeightedSum(g: Arena, ws: seq<nat>, xs: seq<real>, k: nat): (r: real)
    requires AllIn(g, ws) && k <= |ws| && k <= |xs|
    ensures (forall i :: 0 <= i < k ==> xs[i] == 0.0) ==> r == 0.0
    ensures (forall i :: 0 <= i < k ==> g[ws[i]].data == 0.0) ==> r == 0.0
  {
    if k == 0 then 0.0 else WeightedSum(g, ws, xs, k - 1) + g[ws[k - 1]].data * xs[k - 1]
  }

  /** The activation tags Neuron.Forward accepts. */
  predicate Supported(activation: string)
  {
    activation == "relu" || activation == "tanh" || activation == "sigmoid" || activation == ""
  }

  /** The switch on the activation tag applied to the pre-activation `z`. */
  function Activate(m: Libm, activation: string, z: real): (r: Result<real>)
    ensures r.Ok? <==> Supported(activation)
    ensures r.Err? ==> r.msg == ActivationError
  {
    if activation == "relu" then Ok(Relu(z))
    else if activation == "tanh" then Ok(m.tanh(z))
    else if activation == "sigmoid" then Ok(Logistic(m, z))
    else if activation == "" then Ok(z)
    else Err(ActivationError)
  }

  /** The value Neuron.Forward computes from the input values `xs`, or its error. */
  function NeuronEval(m: Libm, g: Arena, n: Neuron, xs: seq<real>): (r: Result<real>)
    requires NeuronIn(g, n)
    ensures r == Err(DimensionError) <==> |xs| != |n.weights|
    ensures r.Err? <==> |xs| != |n.weights| || !Supported(n.activation)
  {
    if |xs| != |n.weights| then Err(DimensionError)
    else Activate(m, n.activation, WeightedSum(g, n.weights, xs, |xs|) + g[n.bias].data)
  }

  /**
   * The values Layer.Forward computes, one per neuron, or the error of the
   * first neuron that fails.
   */
  function LayerEval(m: Libm, g: Arena, ns: seq<Neuron>, xs: seq<real>): (r: Result<seq<real>>)
    requires LayerIn(g, Layer(ns))
    ensures r.Ok? <==> forall i :: 0 <= i < |ns| ==> NeuronEval(m, g, ns[i], xs).Ok?
    ensures r.Ok? ==> |r.value| == |ns| && forall i :: 0 <= i < |ns| ==> r.value[i] == NeuronEval(m, g, ns[i], xs).value
    ensures r.Err? ==> exists k :: (0 <= k < |ns| && NeuronEval(m, g, ns[k], xs) == Err(r.msg) &&
      forall i :: 0 <= i < k ==> NeuronEval(m, g, ns[i], xs).Ok?)
    decreases |ns|
  {
    if ns == [] then Ok([])
    else
      var init := ns[..|ns| - 1];
      assert forall i :: 0 <= i < |init| ==> init[i] == ns[i];
      match LayerEval(m, g, init, xs)
      case Err(e) => Err(e)
      case Ok(vs) =>
        match NeuronEval(m, g, ns[|ns| - 1], xs)
        case Err(e) => Err(e)
        case Ok(v) => Ok(vs + [v])
  }

  /** The values after the layers `ls` in turn, or the first error. */
  function MLPEval(m: Libm, g: Arena, ls: seq<Layer>, xs: seq<real>): (r: Result<seq<real>>)
    requires MLPIn(g, MLP(ls))
    ensures ls == [] ==> r == Ok(xs)
    ensures r.Ok? && ls != [] ==> |r.value| == |ls[|ls| - 1].neurons|
    ensures r.Err? ==> r.msg == DimensionError || r.msg == ActivationError
    decreases |ls|
  {
    if ls == [] then Ok(xs)
    else
      match MLPEval(m, g, ls[..|ls| - 1], xs)
      case Err(e) => Err(e)
      case Ok(h) => LayerEval(m, g, ls[|ls| - 1].neurons, h)
  }

  /** The value MLP.Forward computes, or its error. */
  function MLPOutput(m: Libm, g: Arena, mlp: MLP, xs: seq<real>): (r: Result<real>)
    requires MLPIn(g, mlp)
    ensures r.Ok? ==> MLPEval(m, g, mlp.layers, xs) == Ok([r.value])
    ensures MLPEval(m, g, mlp.layers, xs).Ok? && |MLPEval(m, g, mlp.layers, xs).value| == 1 ==> r.Ok?
    ensures r.Ok? && mlp.layers != [] ==> |mlp.layers[|mlp.layers| - 1].neurons| == 1
    ensures mlp.layers == [] ==> (r.Ok? <==> |xs| == 1)
    ensures r.Err? ==> r.msg in {DimensionError, ActivationError, OutputSizeError}
  {
    match MLPEval(m, g, mlp.layers, xs)
    case Err(e) => Err(e)
    case Ok(out) => if |out| != 1 then Err(OutputSizeError) else assert out == [out[0]]; Ok(out[0])
  }

  // ---------------------------------------------------------------------------
  // The evaluations read only the parameters, which appending nodes leaves alone
  // ---------------------------------------------------------------------------

  lemma {:induction false} WeightedSumExtends(g: Arena, h: Arena, ws: seq<nat>, xs: seq<real>, k: nat)
    requires AllIn(g, ws) && Extends(g, h) && k <= |ws| && k <= |xs|
    ensures AllIn(h, ws) && WeightedSum(h, ws, xs, k) == WeightedSum(g, ws, xs, k)
  {
    DataOfExtends(g, h, ws);
    if k > 0 {
      WeightedSumExtends(g, h, ws, xs, k - 1);
      assert DataOf(h, ws)[k - 1] == DataOf(g, ws)[k - 1];
    }
  }

  lemma NeuronEvalExtends(m: Libm, g: Arena, h: Arena, n: Neuron, xs: seq<real>)
    requires NeuronIn(g, n) && Extends(g, h)
    ensures NeuronIn(h, n) && NeuronEval(m, h, n, xs) == NeuronEval(m, g, n, xs)
  {
    DataOfExtends(g, h, n.weights);
    assert h[..|g|][n.bias] == h[n.bias];
    if |xs| == |n.weights| {
      WeightedSumExtends(g, h, n.weights, xs, |xs|);
    }
  }

  lemma {:induction false} LayerEvalExtends(m: Libm, g: Arena, h: Arena, ns: seq<Neuron>, xs: seq<real>)
    requires LayerIn(g, Layer(ns)) && Extends(g, h)
    ensures LayerIn(h, Layer(ns)) && LayerEval(m, h, ns, xs) == LayerEval(m, g, ns, xs)
    decreases |ns|
  {
    forall i | 0 <= i < |ns|
      ensures NeuronIn(h, ns[i])
    {
      NeuronEvalExtends(m, g, h, ns[i], xs);
    }
    if ns != [] {
      LayerEvalExtends(m, g, h, ns[..|ns| - 1], xs);
      NeuronEvalExtends(m, g, h, ns[|ns| - 1], xs);
    }
  }

  /** The network's first `i + 1` layers: the first `i`, then layer `i` applied to their values. */
  lemma MLPEvalSnoc(m: Libm, g: Arena, ls: seq<Layer>, xs: seq<real>, i: nat, vals: seq<real>)
    requires MLPIn(g, MLP(ls)) && i < |ls| && MLPEval(m, g, ls[..i], xs) == Ok(vals)
    ensures MLPEval(m, g, ls[..i + 1], xs) == LayerEval(m, g, ls[i].neurons, vals)
  {
    assert ls[..i + 1][..i] == ls[..i];
    assert ls[..i + 1][i] == ls[i];
  }

  /** Once the first `k` layers fail, the whole network fails with the same error. */
  lemma {:induction false} MLPEvalFailsEarly(m: Libm, g: Arena, ls: seq<Layer>, xs: seq<real>, k: nat)
    requires MLPIn(g, MLP(ls)) && k <= |ls| && MLPEval(m, g, ls[..k], xs).Err?
    ensures MLPEval(m, g, ls, xs) == MLPEval(m, g, ls[..k], xs)
    decreases |ls|
  {
    if k < |ls| {
      var init := ls[..|ls| - 1];
      assert init[..k] == ls[..k];
      MLPEvalFailsEarly(m, g, init, xs, k);
    } else {
      assert ls[..k] == ls;
    }
  }

  // ---------------------------------------------------------------------------
  // Construction
  // ---------------------------------------------------------------------------

  /** The numbers `rand` supplies for `k` weights allocated from arena index `base` on. */
  function Draws(rand: nat -> real, base: nat, k: nat): seq<real>
  {
    seq(k, i requires 0 <= i < k => rand(base + i))
  }

  /** The leaves NewNeuron allocates from `base` on: its weights, then a bias of 0. */
  function NeuronLeaves(rand: nat -> real, base: nat, numInputs: nat): (r: Arena)
    ensures |r| == numInputs + 1
  {
    Leaves(Draws(rand, base, numInputs)) + [Value(0.0, 0.0, Leaf)]
  }

  /** The leaves NewLayer allocates from `base` on for its first `k` neurons. */
  function LayerLeaves(rand: nat -> real, base: nat, numInputs: nat, k: nat): (r: Arena)
    ensures |r| == k * (numInputs + 1)
  {
    if k == 0 then []
    else
      var prev := LayerLeaves(rand, base, numInputs, k - 1);
      assert |prev| + numInputs + 1 == k * (numInputs + 1);
      prev + NeuronLeaves(rand, base + |prev|, numInputs)
  }

  /** [numInputs] followed by the layer sizes: the inputs and outputs of each layer. */
  function Dims(numInputs: nat, layerSizes: seq<nat>): seq<nat>
  {
    [numInputs] + layerSizes
  }

  /** The leaves NewMLP allocates from `base` on for its first `k` layers. */
  function MLPLeaves(rand: nat -> real, base: nat, dims: seq<nat>, k: nat): Arena
    requires k < |dims|
  {
    if k == 0 then []
    else
      var prev := MLPLeaves(rand, base, dims, k - 1);
      prev + LayerLeaves(rand, base + |prev|, dims[k - 1], dims[k])
  }

  /** `l` has `numOutputs` neurons, each with `numInputs` weights and the given activation. */
  predicate LayerShaped(l: Layer, numInputs: nat, numOutputs: nat, activation: string)
  {
    |l.neurons| == numOutputs &&
    forall j :: 0 <= j < numOutputs ==> |l.neurons[j].weights| == numInputs && l.neurons[j].activation == activation
  }

  /** The activation NewMLP gives layer `i` of `count`: sigmoid for the last, relu before it. */
  function LayerActivation(i: nat, count: nat): string
  {
    if i == count - 1 then "sigmoid" else "relu"
  }

  /** The first `k` layers of `mlp` are shaped as NewMLP builds them. */
  predicate ShapedUpTo(mlp: MLP, numInputs: nat, layerSizes: seq<nat>, k: nat)
    requires k <= |layerSizes| && k <= |mlp.layers|
  {
    forall i :: 0 <= i < k ==>
      LayerShaped(mlp.layers[i], Dims(numInputs, layerSizes)[i], layerSizes[i], LayerActivation(i, |layerSizes|))
  }

  /** `mlp` is what NewMLP builds for `numInputs` and `layerSizes`. */
  predicate Shaped(mlp: MLP, numInputs: nat, layerSizes: seq<nat>)
  {
    |mlp.layers| == |layerSizes| && ShapedUpTo(mlp, numInputs, layerSizes, |layerSizes|)
  }

  lemma RangeConcat(a: nat, b: nat, c: nat)
    requires a <= b <= c
    ensures Range(a, b) + Range(b, c) == Range(a, c)
  {
  }

  /** One more layer shaped as NewMLP builds it. */
  lemma ShapedStep(layers: seq<Layer>, l: Layer, numInputs: nat, layerSizes: seq<nat>, i: nat)
    requires i < |layerSizes| && |layers| == i && ShapedUpTo(MLP(layers), numInputs, layerSizes, i)
    requires LayerShaped(l, Dims(numInputs, layerSizes)[i], layerSizes[i], LayerActivation(i, |layerSizes|))
    ensures ShapedUpTo(MLP(layers + [l]), numInputs, layerSizes, i + 1)
  {
    var ls := layers + [l];
    forall j | 0 <= j < i + 1
      ensures LayerShaped(ls[j], Dims(numInputs, layerSizes)[j], layerSizes[j], LayerActivation(j, |layerSizes|))
    {
      if j < i {
        assert ls[j] == layers[j];
      }
    }
  }

  /** Concatenation regrouped: the arena grown twice is the first arena plus both pieces. */
  lemma AppendTwice(a: Arena, b: Arena, c: Arena, ab: Arena, abc: Arena)
    requires ab == a + b && abc == ab + c
    ensures abc == a + (b + c)
  {
  }

  /** The arena after one more layer is allocated by NewMLP. */
  lemma MLPLeavesStep(rand: nat -> real, g0: Arena, h: Arena, h': Arena, dims: seq<nat>, i: nat)
    requires i + 1 < |dims| && h == g0 + MLPLeaves(rand, |g0|, dims, i)
    requires h' == h + LayerLeaves(rand, |h|, dims[i], dims[i + 1])
    ensures h' == g0 + MLPLeaves(rand, |g0|, dims, i + 1)
  {
    var prev := MLPLeaves(rand, |g0|, dims, i);
    var layer := LayerLeaves(rand, |g0| + |prev|, dims[i], dims[i + 1]);
    assert MLPLeaves(rand, |g0|, dims, i + 1) == prev + layer;
    AppendTwice(g0, prev, layer, h, h');
  }

  /** NewNeuron: `numInputs` fresh weight leaves drawn from `rand`, then a fresh bias leaf of 0. */
  method NewNeuron(g: Graph, numInputs: nat, activation: string, rand: nat -> real) returns (n: Neuron)
    requires g.Valid()
    modifies g
    ensures g.Valid() && g.nodes == old(g.nodes) + NeuronLeaves(rand, |old(g.nodes)|, numInputs)
    ensures |n.weights| == numInputs && n.activation == activation
    ensures NeuronParameters(n) == Range(|old(g.nodes)|, |g.nodes|)
  {
    ghost var base := |g.nodes|;
    var weights: seq<nat> := [];
    for i := 0 to numInputs
      invariant g.Valid() && weights == Range(base, base + i)
      invariant g.nodes == old(g.nodes) + Leaves(Draws(rand, base, i))
    {
      var w := g.NewLeafValue(rand(|g.nodes|));
      assert Leaves(Draws(rand, base, i + 1)) == Leaves(Draws(rand, base, i)) + [Value(rand(base + i), 0.0, Leaf)];
      weights := weights + [w];
    }
    var bias := g.NewLeafValue(0.0);
    n := Neuron(weights, bias, activation);
  }

  /** NewLayer: `numOutputs` fresh neurons, allocated one after the other. */
  method NewLayer(g: Graph, numInputs: nat, numOutputs: nat, activation: string, rand: nat -> real) returns (l: Layer)
    requires g.Valid()
    modifies g
    ensures g.Valid() && g.nodes == old(g.nodes) + LayerLeaves(rand, |old(g.nodes)|, numInputs, numOutputs)
    ensures LayerShaped(l, numInputs, numOutputs, activation)
    ensures LayerParams(l.neurons) == Range(|old(g.nodes)|, |g.nodes|)
  {
    ghost var base := |g.nodes|;
    var neurons: seq<Neuron> := [];
    for i := 0 to numOutputs
      invariant g.Valid() && g.nodes == old(g.nodes) + LayerLeaves(rand, base, numInputs, i)
      invariant LayerShaped(Layer(neurons), numInputs, i, activation)
      invariant LayerParams(neurons) == Range(base, |g.nodes|)
    {
      ghost var before := |g.nodes|;
      var n := NewNeuron(g, numInputs, activation, rand);
      assert (neurons + [n])[..i] == neurons;
      RangeConcat(base, before, |g.nodes|);
      neurons := neurons + [n];
    }
    l := Layer(neurons);
  }

  /**
   * NewMLP: rejects a last layer size other than 1; otherwise one layer per
   * size, layer i taking the outputs of layer i-1 (the network inputs for
   * the first), relu everywhere but a sigmoid last layer.
   */
  method NewMLP(g: Graph, numInputs: nat, layerSizes: seq<nat>, rand: nat -> real) returns (r: Result<MLP>)
    requires g.Valid() && |layerSizes| > 0
    modifies g
    ensures g.Valid()
    ensures layerSizes[|layerSizes| - 1] != 1 ==> r == Err(OutputLayerError) && g.nodes == old(g.nodes)
    ensures layerSizes[|layerSizes| - 1] == 1 ==>
      && r.Ok? && Shaped(r.value, numInputs, layerSizes)
      && g.nodes == old(g.nodes) + MLPLeaves(rand, |old(g.nodes)|, Dims(numInputs, layerSizes), |layerSizes|)
      && MLPParams(r.value.layers) == Range(|old(g.nodes)|, |g.nodes|)
  {
    if layerSizes[|layerSizes| - 1] != 1 {
      return Err(OutputLayerError);
    }
    ghost var base := |g.nodes|;
    var layerDims := [numInputs] + layerSizes;
    assert layerDims == Dims(numInputs, layerSizes);
    var layers: seq<Layer> := [];
    for i := 0 to |layerSizes|
      invariant g.Valid() && |layers| == i
      invariant g.nodes == old(g.nodes) + MLPLeaves(rand, base, layerDims, i)
      invariant ShapedUpTo(MLP(layers), numInputs, layerSizes, i)
      invariant MLPParams(layers) == Range(base, |g.nodes|)
    {
      ghost var before := |g.nodes|;
      ghost var h := g.nodes;
      var activation := if i == |layerSizes| - 1 then "sigmoid" else "relu";
      var l := NewLayer(g, layerDims[i], layerDims[i + 1], activation, rand);
      ShapedStep(layers, l, numInputs, layerSizes, i);
      MLPLeavesStep(rand, old(g.nodes), h, g.nodes, layerDims, i);
      RangeConcat(base, before, |g.nodes|);
      layers := layers + [l];
    }
    r := Ok(MLP(layers));
  }

  // ---------------------------------------------------------------------------
  // The nodes the forward passes append
  // ---------------------------------------------------------------------------

  /**
   * The two nodes one pass of Neuron.Forward's loop appends from index `k`
   * on, given the data `w` of the weight, `x` of the input and `s` of the
   * accumulator at node `acc`: the product, and the new accumulator.
   */
  function ProductSample(w: real, x: real, s: real, wi: nat, xi: nat, acc: nat, k: nat): (b: seq<Value>)
    ensures |b| == 2
  {
    [ Value(w * x, 0.0, Op.Mul(wi, xi)),
      Value(s + w * x, 0.0, Op.Add(acc, k)) ]
  }

  /** The accumulator of the loop of Neuron.Forward after its first `k` inputs, read from the arena. */
  function Dot(g: Arena, ws: seq<nat>, x: seq<nat>, k: nat): real
    requires AllIn(g, ws) && AllIn(g, x) && k <= |ws| && k <= |x|
  {
    if k == 0 then 0.0 else Dot(g, ws, x, k - 1) + g[ws[k - 1]].data * g[x[k - 1]].data
  }

  /** Read from the arena or from the input values, the accumulator is the same weighted sum. */
  lemma {:induction false} DotWeightedSum(g: Arena, ws: seq<nat>, x: seq<nat>, k: nat)
    requires AllIn(g, ws) && AllIn(g, x) && k <= |ws| && k <= |x|
    ensures Dot(g, ws, x, k) == WeightedSum(g, ws, DataOf(g, x), k)
  {
    if k > 0 {
      DotWeightedSum(g, ws, x, k - 1);
    }
  }

  /**
   * The accumulator leaf of 0, then the products of the first `k` inputs of
   * a neuron that starts allocating at `base`: the accumulator after `i`
   * inputs sits at `base + 2*i`.
   */
  function SumPrefix(g: Arena, ws: seq<nat>, x: seq<nat>, base: nat, k: nat): (r: seq<Value>)
    requires AllIn(g, ws) && AllIn(g, x) && k <= |ws| && k <= |x|
    ensures |r| == 1 + 2 * k
    ensures r[2 * k].data == Dot(g, ws, x, k)
  {
    if k == 0 then [Value(0.0, 0.0, Leaf)]
    else
      var i := k - 1;
      SumPrefix(g, ws, x, base, i)
        + ProductSample(g[ws[i]].data, g[x[i]].data, Dot(g, ws, x, i), ws[i], x[i], base + 2 * i, base + 1 + 2 * i)
  }

  /**
   * In the arena `h` the first `i` loop passes leave, the inputs still hold
   * their data, the accumulator holds the sum so far, and pass `i` makes it
   * the arena of `i + 1` passes.
   */
  lemma SumPrefixStep(g: Arena, ws: seq<nat>, x: seq<nat>, i: nat, h: Arena)
    requires AllIn(g, ws) && AllIn(g, x) && i < |ws| && i < |x|
    requires h == g + SumPrefix(g, ws, x, |g|, i)
    ensures Extends(g, h) && |g| + 2 * i < |h|
    ensures h[ws[i]] == g[ws[i]] && h[x[i]] == g[x[i]]
    ensures h[|g| + 2 * i].data == Dot(g, ws, x, i)
    ensures h + ProductSample(h[ws[i]].data, h[x[i]].data, h[|g| + 2 * i].data, ws[i], x[i], |g| + 2 * i, |h|)
      == g + SumPrefix(g, ws, x, |g|, i + 1)
  {
    var sp := SumPrefix(g, ws, x, |g|, i);
    assert h[..|g|] == g;
    assert h[ws[i]] == h[..|g|][ws[i]] && h[x[i]] == h[..|g|][x[i]];
    assert h[|g| + 2 * i] == sp[2 * i];
    var ps := ProductSample(g[ws[i]].data, g[x[i]].data, Dot(g, ws, x, i), ws[i], x[i], |g| + 2 * i, |g| + 1 + 2 * i);
    assert SumPrefix(g, ws, x, |g|, i + 1) == sp + ps;
    AppendTwice(g, sp, ps, h, h + ps);
  }

  /** The node the activation tag appends on the pre-activation `z` at node `a`: none for "" or an unknown tag. */
  function ActivationNodes(m: Libm, activation: string, z: real, a: nat): (b: seq<Value>)
    ensures |b| <= 1
    ensures |b| == 1 <==> activation in {"relu", "tanh", "sigmoid"}
    ensures |b| == 1 ==> Activate(m, activation, z) == Ok(b[0].data) && Children(b[0].op) == [a]
  {
    if activation == "relu" then [Value(Relu(z), 0.0, Op.ReLU(a))]
    else if activation == "tanh" then [Value(m.tanh(z), 0.0, Op.Tanh(a))]
    else if activation == "sigmoid" then [Value(Logistic(m, z), 0.0, Op.Sigmoid(a))]
    else []
  }

  /**
   * Every node Neuron.Forward appends when its first new node gets the index
   * `base`, reading the weights, the bias and the inputs from `g`: nothing on
   * an input of the wrong length; otherwise the accumulator and the products,
   * the sum with the bias, and the activation node.  An unknown tag still
   * leaves the sum behind.
   */
  function NeuronNodes(m: Libm, g: Arena, base: nat, n: Neuron, x: seq<nat>): (r: seq<Value>)
    requires NeuronIn(g, n) && AllIn(g, x)
    ensures r == [] <==> |x| != |n.weights|
  {
    if |x| != |n.weights| then []
    else NeuronSum(g, base, n, x) + ActivationNodes(m, n.activation, PreActivationValue(g, n, x), base + 2 * |x| + 1)
  }

  /** The pre-activation Neuron.Forward computes: the weighted sum of the inputs plus the bias. */
  function PreActivationValue(g: Arena, n: Neuron, x: seq<nat>): real
    requires NeuronIn(g, n) && AllIn(g, x) && |x| == |n.weights|
  {
    Dot(g, n.weights, x, |x|) + g[n.bias].data
  }

  /** The nodes of the loop of Neuron.Forward, then the sum with the bias, which holds the pre-activation. */
  function NeuronSum(g: Arena, base: nat, n: Neuron, x: seq<nat>): (r: seq<Value>)
    requires NeuronIn(g, n) && AllIn(g, x) && |x| == |n.weights|
    ensures |r| == 2 * |x| + 2 && r[|r| - 1].data == PreActivationValue(g, n, x)
  {
    SumPrefix(g, n.weights, x, base, |x|) + [Value(PreActivationValue(g, n, x), 0.0, Op.Add(base + 2 * |x|, n.bias))]
  }

  /** The last node Neuron.Forward appends holds the value `NeuronEval` gives, whenever that is not an error. */
  lemma NeuronNodesValue(m: Libm, g: Arena, base: nat, n: Neuron, x: seq<nat>)
    requires NeuronIn(g, n) && AllIn(g, x)
    ensures var e := NeuronEval(m, g, n, DataOf(g, x)); var r := NeuronNodes(m, g, base, n, x);
      e.Ok? ==> r != [] && r[|r| - 1].data == e.value
  {
    if |x| == |n.weights| {
      DotWeightedSum(g, n.weights, x, |x|);
    }
  }

  /** Two nodes per input, the accumulator, the sum with the bias, and one node for each of the three activations. */
  lemma NeuronNodesLength(m: Libm, g: Arena, base: nat, n: Neuron, x: seq<nat>)
    requires NeuronIn(g, n) && AllIn(g, x) && |x| == |n.weights|
    ensures |NeuronNodes(m, g, base, n, x)| == 2 * |x| + 2 + (if n.activation in {"relu", "tanh", "sigmoid"} then 1 else 0)
  {
  }

  /** The weights and inputs Dot reads are nodes of `g`, which an extension leaves alone. */
  lemma {:induction false} DotExtends(g: Arena, h: Arena, ws: seq<nat>, x: seq<nat>, k: nat)
    requires AllIn(g, ws) && AllIn(g, x) && k <= |ws| && k <= |x| && Extends(g, h)
    ensures AllIn(h, ws) && AllIn(h, x) && Dot(h, ws, x, k) == Dot(g, ws, x, k)
  {
    if k > 0 {
      DotExtends(g, h, ws, x, k - 1);
      assert h[ws[k - 1]] == h[..|g|][ws[k - 1]] && h[x[k - 1]] == h[..|g|][x[k - 1]];
    }
  }

  lemma {:induction false} SumPrefixExtends(g: Arena, h: Arena, ws: seq<nat>, x: seq<nat>, base: nat, k: nat)
    requires AllIn(g, ws) && AllIn(g, x) && k <= |ws| && k <= |x| && Extends(g, h)
    ensures AllIn(h, ws) && AllIn(h, x) && SumPrefix(h, ws, x, base, k) == SumPrefix(g, ws, x, base, k)
  {
    DotExtends(g, h, ws, x, k);
    if k > 0 {
      SumPrefixExtends(g, h, ws, x, base, k - 1);
      DotExtends(g, h, ws, x, k - 1);
      assert h[ws[k - 1]] == h[..|g|][ws[k - 1]] && h[x[k - 1]] == h[..|g|][x[k - 1]];
    }
  }

  /** The nodes a neuron appends depend on the nodes it reads only, so on any extension of `g` they are the same. */
  lemma NeuronNodesExtends(m: Libm, g: Arena, h: Arena, base: nat, n: Neuron, x: seq<nat>)
    requires NeuronIn(g, n) && AllIn(g, x) && Extends(g, h)
    ensures NeuronIn(h, n) && AllIn(h, x) && NeuronNodes(m, h, base, n, x) == NeuronNodes(m, g, base, n, x)
  {
    assert h[n.bias] == h[..|g|][n.bias];
    if |x| == |n.weights| {
      SumPrefixExtends(g, h, n.weights, x, base, |x|);
      DotExtends(g, h, n.weights, x, |x|);
    }
  }

  // ---------------------------------------------------------------------------
  // Forward passes
  // ---------------------------------------------------------------------------

  /**
   * Neuron.Forward: fails without allocating anything when the input has the
   * wrong length; otherwise builds the weighted sum plus bias and wraps it in
   * the activation (an unknown tag fails after the sum has been built).  The
   * nodes that existed before are untouched.
   */
  method NeuronForward(g: Graph, n: Neuron, x: seq<nat>) returns (r: Result<nat>)
    requires g.Valid() && NeuronIn(g.nodes, n) && AllIn(g.nodes, x)
    modifies g
    ensures g.Valid() && Extends(old(g.nodes), g.nodes)
    ensures |x| != |n.weights| ==> g.nodes == old(g.nodes)
    ensures g.nodes == old(g.nodes) + NeuronNodes(g.math, old(g.nodes), |old(g.nodes)|, n, x)
    ensures r.Err? <==> NeuronFails(n, x)
    ensures var e := NeuronEval(g.math, old(g.nodes), n, DataOf(old(g.nodes), x));
      && (r.Err? <==> e.Err?)
      && (r.Err? ==> r.msg == e.msg)
      && (r.Ok? ==> r.value == |g.nodes| - 1 && g.nodes[r.value].data == e.value)
  {
    if |x| != |n.weights| {
      return Err(DimensionError);
    }
    ghost var g0 := g.nodes;
    DotWeightedSum(g0, n.weights, x, |x|);
    assert NeuronEval(g.math, g0, n, DataOf(g0, x)) == Activate(g.math, n.activation, PreActivationValue(g0, n, x));
    var act := PreActivation(g, n, x);
    ghost var h := g.nodes;
    assert act == |g0| + 2 * |x| + 1 && h[act].data == PreActivationValue(g0, n, x);
    r := Activation(g, act, n.activation);
    NeuronNodesOf(g.math, g0, n, x, h, g.nodes);
    ExtendsTrans(g0, h, g.nodes);
  }

  /** The loop of Neuron.Forward: `w[i] * x[i]` summed onto a leaf of 0, then the bias added. */
  method PreActivation(g: Graph, n: Neuron, x: seq<nat>) returns (act: nat)
    requires g.Valid() && NeuronIn(g.nodes, n) && AllIn(g.nodes, x) && |x| == |n.weights|
    modifies g
    ensures g.Valid() && Extends(old(g.nodes), g.nodes) && act == |g.nodes| - 1
    ensures g.nodes[act].data
      == WeightedSum(old(g.nodes), n.weights, DataOf(old(g.nodes), x), |x|) + old(g.nodes)[n.bias].data
    ensures g.nodes == old(g.nodes) + NeuronSum(old(g.nodes), |old(g.nodes)|, n, x)
  {
    ghost var g0 := g.nodes;
    act := SumProducts(g, n.weights, x);
    ghost var h := g.nodes;
    SumPrefixEnd(g0, n.weights, x, h);
    DotWeightedSum(g0, n.weights, x, |x|);
    act := g.Add(act, Node(n.bias));
    assert Extends(h, g.nodes);
    ExtendsTrans(g0, h, g.nodes);
  }

  /** The loop itself: a leaf of 0, then `act.Add(w[i].Mul(x[i]))` for every input in order. */
  method SumProducts(g: Graph, ws: seq<nat>, x: seq<nat>) returns (act: nat)
    requires g.Valid() && AllIn(g.nodes, ws) && AllIn(g.nodes, x) && |x| == |ws|
    modifies g
    ensures g.Valid() && act == |old(g.nodes)| + 2 * |x|
    ensures g.nodes == old(g.nodes) + SumPrefix(old(g.nodes), ws, x, |old(g.nodes)|, |x|)
  {
    ghost var g0 := g.nodes;
    act := g.NewLeafValue(0.0);
    for i := 0 to |ws|
      invariant g.Valid() && act == |g0| + 2 * i
      invariant g.nodes == g0 + SumPrefix(g0, ws, x, |g0|, i)
    {
      ghost var h := g.nodes;
      SumPrefixStep(g0, ws, x, i, h);
      act := AddProduct(g, act, ws[i], x[i]);
    }
  }

  /** The loop, the bias and the activation together append `NeuronNodes`. */
  lemma NeuronNodesOf(m: Libm, g: Arena, n: Neuron, x: seq<nat>, h: Arena, f: Arena)
    requires NeuronIn(g, n) && AllIn(g, x) && |x| == |n.weights|
    requires h == g + NeuronSum(g, |g|, n, x)
    requires f == h + ActivationNodes(m, n.activation, PreActivationValue(g, n, x), |g| + 2 * |x| + 1)
    ensures f == g + NeuronNodes(m, g, |g|, n, x)
  {
    AppendTwice(g, NeuronSum(g, |g|, n, x), ActivationNodes(m, n.activation, PreActivationValue(g, n, x), |g| + 2 * |x| + 1), h, f);
  }

  /** After the loop the accumulator is the last node, holding the whole weighted sum, and the bias is untouched. */
  lemma SumPrefixEnd(g: Arena, ws: seq<nat>, x: seq<nat>, h: Arena)
    requires AllIn(g, ws) && AllIn(g, x) && |ws| == |x|
    requires h == g + SumPrefix(g, ws, x, |g|, |x|)
    ensures Extends(g, h) && |h| == |g| + 2 * |x| + 1
    ensures h[|g| + 2 * |x|].data == Dot(g, ws, x, |x|)
    ensures forall k :: 0 <= k < |g| ==> h[k] == g[k]
  {
    assert h[..|g|] == g;
  }

  /** One step of the loop of Neuron.Forward: `act.Add(w.Mul(x))`. */
  method AddProduct(g: Graph, act: nat, w: nat, x: nat) returns (out: nat)
    requires g.Valid() && act < |g.nodes| && w < |g.nodes| && x < |g.nodes|
    modifies g
    ensures g.Valid() && Extends(old(g.nodes), g.nodes) && out == |old(g.nodes)| + 1
    ensures var h := old(g.nodes);
      g.nodes == h + ProductSample(h[w].data, h[x].data, h[act].data, w, x, act, |h|)
    ensures g.nodes[out].data == old(g.nodes)[act].data + old(g.nodes)[w].data * old(g.nodes)[x].data
  {
    ghost var h := g.nodes;
    var t := g.Mul(w, Node(x));
    assert Lifted(h, Node(x)) == h && LiftedIndex(h, Node(x)) == x;
    assert t == |h| && g.nodes[..t] == h;
    assert g.nodes == g.nodes[..t] + [g.nodes[t]];
    assert g.nodes[w] == g.nodes[..t][w] && g.nodes[x] == g.nodes[..t][x];
    assert g.nodes[t] == Value(h[w].data * h[x].data, 0.0, Op.Mul(w, x));
    ghost var h' := g.nodes;
    assert h' == h + [Value(h[w].data * h[x].data, 0.0, Op.Mul(w, x))];
    out := g.Add(act, Node(t));
    assert h'[act] == h[act] && h'[t].data == h[w].data * h[x].data;
    ghost var prod := h[w].data * h[x].data;
    ghost var a := Value(prod, 0.0, Op.Mul(w, x));
    ghost var b := Value(h[act].data + prod, 0.0, Op.Add(act, t));
    assert g.nodes == h' + [b];
    ghost var sample := ProductSample(h[w].data, h[x].data, h[act].data, w, x, act, |h|);
    assert sample[0] == a && sample[1] == b;
    assert sample == [a] + [b];
    AppendTwice(h, [a], [b], h', g.nodes);
    ExtendsTrans(h, h', g.nodes);
  }

  /** The switch on the activation tag at the end of Neuron.Forward. */
  method Activation(g: Graph, act: nat, activation: string) returns (r: Result<nat>)
    requires g.Valid() && act < |g.nodes|
    modifies g
    ensures g.Valid() && Extends(old(g.nodes), g.nodes)
    ensures var e := Activate(g.math, activation, old(g.nodes)[act].data);
      && (r.Err? <==> e.Err?)
      && (r.Err? ==> r.msg == e.msg)
      && (r.Ok? ==> r.value < |g.nodes| && g.nodes[r.value].data == e.value)
    ensures g.nodes == old(g.nodes) + ActivationNodes(g.math, activation, old(g.nodes)[act].data, act)
    ensures r.Ok? && act == |old(g.nodes)| - 1 ==> r.value == |g.nodes| - 1
  {
    var out: nat := act;
    if activation == "relu" {
      out := g.ReLU(act);
    } else if activation == "tanh" {
      out := g.Tanh(act);
    } else if activation == "sigmoid" {
      out := g.Sigmoid(act);
    } else if activation == "" {
    } else {
      return Err(ActivationError);
    }
    r := Ok(out);
  }

  // ---------------------------------------------------------------------------
  // The nodes a layer and a network append
  // ---------------------------------------------------------------------------

  /**
   * What a forward pass appends: its nodes, the indices of its outputs, and
   * whether it stopped at an error (its outputs are then empty).
   */
  datatype Run = Run(nodes: seq<Value>, outs: seq<nat>, failed: bool)

  /** Whether Neuron.Forward returns an error: that depends on the shapes only, not on the data. */
  predicate NeuronFails(n: Neuron, x: seq<nat>)
  {
    |x| != |n.weights| || !Supported(n.activation)
  }

  /**
   * The nodes Layer.Forward appends: the `NeuronNodes` of each neuron in turn,
   * each on the arena the neurons before it left, up to and including the
   * first neuron that fails; on success, the output node of every neuron.
   */
  function LayerRun(m: Libm, g: Arena, ns: seq<Neuron>, x: seq<nat>): (r: Run)
    decreases |ns|
  {
    if ns == [] then Run([], [], false)
    else
      var prev := LayerRun(m, g, ns[..|ns| - 1], x);
      if prev.failed then prev else NeuronStep(m, g + prev.nodes, prev, ns[|ns| - 1], x)
  }

  /**
   * The run `prev`, which left arena `h`, followed by the nodes of neuron `n`
   * (an arena without `n`'s parameters or the input counts as a failure; it
   * does not arise from Layer.Forward's arguments).
   */
  function NeuronStep(m: Libm, h: Arena, prev: Run, n: Neuron, x: seq<nat>): (r: Run)
  {
    if !(NeuronIn(h, n) && AllIn(h, x)) then Run(prev.nodes, [], true)
    else
      var b := NeuronNodes(m, h, |h|, n, x);
      if NeuronFails(n, x) then Run(prev.nodes + b, [], true)
      else Run(prev.nodes + b, prev.outs + [|h| + |b| - 1], false)
  }

  /** The layer fails exactly when one of its neurons does. */
  lemma {:induction false} LayerRunFails(m: Libm, g: Arena, ns: seq<Neuron>, x: seq<nat>)
    requires LayerIn(g, Layer(ns)) && AllIn(g, x)
    ensures LayerRun(m, g, ns, x).failed <==> exists k :: 0 <= k < |ns| && NeuronFails(ns[k], x)
    decreases |ns|
  {
    if ns != [] {
      LayerRunFails(m, g, ns[..|ns| - 1], x);
      LayerRunFailedLast(m, g, ns, x);
      SomeNeuronFails(ns, ns[..|ns| - 1], x, LayerRun(m, g, ns[..|ns| - 1], x).failed, LayerRun(m, g, ns, x).failed);
    }
  }

  /** Some neuron of `ns` fails exactly when one of all but the last does, or the last one does. */
  lemma SomeNeuronFails(ns: seq<Neuron>, init: seq<Neuron>, x: seq<nat>, before: bool, after: bool)
    requires ns != [] && init == ns[..|ns| - 1]
    requires before <==> exists k :: 0 <= k < |init| && NeuronFails(init[k], x)
    requires after == (before || NeuronFails(ns[|ns| - 1], x))
    ensures after <==> exists k :: 0 <= k < |ns| && NeuronFails(ns[k], x)
  {
    if before {
      var k :| 0 <= k < |init| && NeuronFails(init[k], x);
      assert ns[k] == init[k];
    } else if !after {
      forall k | 0 <= k < |ns|
        ensures !NeuronFails(ns[k], x)
      {
        if k < |ns| - 1 {
          assert ns[k] == init[k];
        }
      }
    }
  }

  /** A layer fails when its neurons but the last fail, or when the last one does. */
  lemma LayerRunFailedLast(m: Libm, g: Arena, ns: seq<Neuron>, x: seq<nat>)
    requires LayerIn(g, Layer(ns)) && AllIn(g, x) && ns != []
    ensures LayerRun(m, g, ns, x).failed == (LayerRun(m, g, ns[..|ns| - 1], x).failed || NeuronFails(ns[|ns| - 1], x))
  {
    StepIn(g, LayerRun(m, g, ns[..|ns| - 1], x).nodes, ns[|ns| - 1], x);
  }

  /** An arena that grew still holds a neuron's parameters and the input. */
  lemma StepIn(g: Arena, appended: seq<Value>, n: Neuron, x: seq<nat>)
    requires NeuronIn(g, n) && AllIn(g, x)
    ensures NeuronIn(g + appended, n) && AllIn(g + appended, x)
  {
  }

  /** A layer that does not fail has one output per neuron, each a node it appended. */
  lemma {:induction false} LayerRunOuts(m: Libm, g: Arena, ns: seq<Neuron>, x: seq<nat>)
    requires LayerIn(g, Layer(ns)) && AllIn(g, x)
    ensures var r := LayerRun(m, g, ns, x);
      !r.failed ==> |r.outs| == |ns| && forall j :: 0 <= j < |r.outs| ==> |g| <= r.outs[j] < |g| + |r.nodes|
    decreases |ns|
  {
    var r := LayerRun(m, g, ns, x);
    if ns != [] && !r.failed {
      var init := ns[..|ns| - 1];
      var prev := LayerRun(m, g, init, x);
      LayerRunOuts(m, g, init, x);
      StepIn(g, prev.nodes, ns[|ns| - 1], x);
    }
  }

  /** One more neuron that runs after `i` neurons that did not fail. */
  lemma LayerRunSnoc(m: Libm, g: Arena, ns: seq<Neuron>, x: seq<nat>, i: nat, prev: Run, h: Arena, f: Arena)
    requires i < |ns| && prev == LayerRun(m, g, ns[..i], x) && !prev.failed
    requires h == g + prev.nodes && NeuronIn(h, ns[i]) && AllIn(h, x) && f == h + NeuronNodes(m, h, |h|, ns[i], x)
    ensures var r := LayerRun(m, g, ns[..i + 1], x);
      && f == g + r.nodes
      && (r.failed <==> NeuronFails(ns[i], x))
      && (!r.failed ==> r.outs == prev.outs + [|f| - 1])
  {
    LayerRunUnfold(m, g, ns, x, i);
    NeuronStepAppends(m, g, prev, ns[i], x, h, f);
  }

  lemma LayerRunUnfold(m: Libm, g: Arena, ns: seq<Neuron>, x: seq<nat>, i: nat)
    requires i < |ns| && !LayerRun(m, g, ns[..i], x).failed
    ensures var prev := LayerRun(m, g, ns[..i], x);
      LayerRun(m, g, ns[..i + 1], x) == NeuronStep(m, g + prev.nodes, prev, ns[i], x)
  {
    assert ns[..i + 1][..i] == ns[..i];
    assert ns[..i + 1][i] == ns[i];
  }

  /** What one neuron appends after a run that left `h`: the run's nodes and outputs grow by the neuron's. */
  lemma NeuronStepAppends(m: Libm, g: Arena, prev: Run, n: Neuron, x: seq<nat>, h: Arena, f: Arena)
    requires h == g + prev.nodes && NeuronIn(h, n) && AllIn(h, x) && f == h + NeuronNodes(m, h, |h|, n, x)
    ensures var r := NeuronStep(m, h, prev, n, x);
      && f == g + r.nodes
      && r.failed == NeuronFails(n, x)
      && (!r.failed ==> r.outs == prev.outs + [|f| - 1])
  {
    AppendTwice(g, prev.nodes, NeuronNodes(m, h, |h|, n, x), h, f);
  }

  /** After the first failing neuron nothing more is appended. */
  lemma {:induction false} LayerRunFailsEarly(m: Libm, g: Arena, ns: seq<Neuron>, x: seq<nat>, k: nat)
    requires k <= |ns| && LayerRun(m, g, ns[..k], x).failed
    ensures LayerRun(m, g, ns, x) == LayerRun(m, g, ns[..k], x)
    decreases |ns|
  {
    if k < |ns| {
      var init := ns[..|ns| - 1];
      assert init[..k] == ns[..k];
      LayerRunFailsEarly(m, g, init, x, k);
    } else {
      assert ns[..k] == ns;
    }
  }

  /** One pass of Layer.Forward's loop: neuron `i` on the arena the first `i` left. */
  method LayerNeuron(g: Graph, ns: seq<Neuron>, x: seq<nat>, i: nat, ghost g0: Arena, ghost prev: Run)
    returns (o: Result<nat>)
    requires g.Valid() && LayerIn(g0, Layer(ns)) && AllIn(g0, x) && i < |ns|
    requires prev == LayerRun(g.math, g0, ns[..i], x) && !prev.failed && g.nodes == g0 + prev.nodes
    modifies g
    ensures g.Valid() && Extends(old(g.nodes), g.nodes) && Extends(g0, g.nodes)
    ensures var r := LayerRun(g.math, g0, ns[..i + 1], x);
      && g.nodes == g0 + r.nodes
      && (o.Err? <==> r.failed)
      && (o.Ok? ==> r.outs == prev.outs + [o.value])
    ensures var e := NeuronEval(g.math, old(g.nodes), ns[i], DataOf(old(g.nodes), x));
      && (o.Err? <==> e.Err?)
      && (o.Err? ==> o.msg == e.msg)
      && (o.Ok? ==> o.value == |g.nodes| - 1 && g.nodes[o.value].data == e.value)
  {
    ghost var h := g.nodes;
    LayerRunIn(g0, ns, x, i, h, prev.nodes);
    o := NeuronForward(g, ns[i], x);
    LayerRunNext(g.math, g0, ns, x, i, prev, h, g.nodes, o);
    ExtendsTrans(g0, h, g.nodes);
  }

  /** The arena the first `i` neurons left still holds neuron `i` and the input. */
  lemma LayerRunIn(g0: Arena, ns: seq<Neuron>, x: seq<nat>, i: nat, h: Arena, appended: seq<Value>)
    requires LayerIn(g0, Layer(ns)) && AllIn(g0, x) && i < |ns|
    requires h == g0 + appended
    ensures Extends(g0, h) && NeuronIn(h, ns[i]) && AllIn(h, x)
  {
    assert h[..|g0|] == g0;
  }

  /** What Neuron.Forward returned for neuron `i`, in terms of the layer's run. */
  lemma LayerRunNext(m: Libm, g0: Arena, ns: seq<Neuron>, x: seq<nat>, i: nat, prev: Run, h: Arena, f: Arena, o: Result<nat>)
    requires i < |ns| && prev == LayerRun(m, g0, ns[..i], x) && !prev.failed && h == g0 + prev.nodes
    requires NeuronIn(h, ns[i]) && AllIn(h, x) && f == h + NeuronNodes(m, h, |h|, ns[i], x)
    requires o.Err? <==> NeuronFails(ns[i], x)
    requires o.Ok? ==> o.value == |f| - 1
    ensures var r := LayerRun(m, g0, ns[..i + 1], x);
      && f == g0 + r.nodes
      && (o.Err? <==> r.failed)
      && (o.Ok? ==> r.outs == prev.outs + [o.value])
  {
    LayerRunSnoc(m, g0, ns, x, i, prev, h, f);
    RunOutcome(LayerRun(m, g0, ns[..i + 1], x), prev, f, o, NeuronFails(ns[i], x));
  }

  /** The outcome of a neuron read off its `Run` step. */
  lemma RunOutcome(r: Run, prev: Run, f: Arena, o: Result<nat>, fails: bool)
    requires r.failed == fails && (!r.failed ==> r.outs == prev.outs + [|f| - 1])
    requires (o.Err? <==> fails) && (o.Ok? ==> o.value == |f| - 1)
    ensures (o.Err? <==> r.failed) && (o.Ok? ==> r.outs == prev.outs + [o.value])
  {
  }

  /**
   * Layer.Forward: each neuron on the same input, in order; the first neuron
   * error is returned as it is.
   */
  method LayerForward(g: Graph, l: Layer, x: seq<nat>) returns (r: Result<seq<nat>>)
    requires g.Valid() && LayerIn(g.nodes, l) && AllIn(g.nodes, x)
    modifies g
    ensures g.Valid() && Extends(old(g.nodes), g.nodes)
    ensures var run := LayerRun(g.math, old(g.nodes), l.neurons, x);
      && g.nodes == old(g.nodes) + run.nodes
      && (r.Err? <==> run.failed)
      && (r.Ok? ==> r.value == run.outs)
    ensures var e := LayerEval(g.math, old(g.nodes), l.neurons, DataOf(old(g.nodes), x));
      && (r.Err? <==> e.Err?)
      && (r.Err? ==> r.msg == e.msg)
      && (r.Ok? ==> AllIn(g.nodes, r.value) && DataOf(g.nodes, r.value) == e.value)
  {
    ghost var g0 := g.nodes;
    ghost var xs := DataOf(g0, x);
    var out: seq<nat> := [];
    assert l.neurons[..0] == [] && DataOf(g.nodes, out) == [];
    assert g.nodes == g0 + [];
    for i := 0 to |l.neurons|
      invariant g.Valid() && Extends(g0, g.nodes) && AllIn(g.nodes, out)
      invariant LayerEval(g.math, g0, l.neurons[..i], xs) == Ok(DataOf(g.nodes, out))
      invariant !LayerRun(g.math, g0, l.neurons[..i], x).failed
      invariant g.nodes == g0 + LayerRun(g.math, g0, l.neurons[..i], x).nodes
      invariant out == LayerRun(g.math, g0, l.neurons[..i], x).outs
    {
      ghost var h := g.nodes;
      DataOfExtends(g0, h, x);
      NeuronEvalExtends(g.math, g0, h, l.neurons[i], xs);
      LayerEvalSnoc(g.math, g0, l.neurons, xs, i, DataOf(h, out));
      var o := LayerNeuron(g, l.neurons, x, i, g0, LayerRun(g.math, g0, l.neurons[..i], x));
      if o.Err? {
        LayerEvalFailsEarly(g.math, g0, l.neurons, xs, i + 1);
        LayerRunFailsEarly(g.math, g0, l.neurons, x, i + 1);
        return Err(o.msg);
      }
      DataOfSnoc(h, g.nodes, out, o.value);
      out := out + [o.value];
    }
    assert l.neurons[..|l.neurons|] == l.neurons;
    r := Ok(out);
  }

  /** The layer's first `i + 1` neurons: the first `i` followed by neuron `i`. */
  lemma LayerEvalSnoc(m: Libm, g: Arena, ns: seq<Neuron>, xs: seq<real>, i: nat, vals: seq<real>)
    requires LayerIn(g, Layer(ns)) && i < |ns| && LayerEval(m, g, ns[..i], xs) == Ok(vals)
    ensures LayerEval(m, g, ns[..i + 1], xs) == match NeuronEval(m, g, ns[i], xs)
      case Err(e) => Err(e)
      case Ok(v) => Ok(vals + [v])
  {
    assert ns[..i + 1][..i] == ns[..i];
    assert ns[..i + 1][i] == ns[i];
  }

  /** The values of `xs` and one more node `v` of an extended arena. */
  lemma DataOfSnoc(g: Arena, h: Arena, xs: seq<nat>, v: nat)
    requires AllIn(g, xs) && Extends(g, h) && v < |h|
    ensures AllIn(h, xs + [v]) && DataOf(h, xs + [v]) == DataOf(g, xs) + [h[v].data]
  {
    DataOfExtends(g, h, xs);
  }

  /** Once the first `k` neurons include a failing one, the layer fails with the same error. */
  lemma {:induction false} LayerEvalFailsEarly(m: Libm, g: Arena, ns: seq<Neuron>, xs: seq<real>, k: nat)
    requires LayerIn(g, Layer(ns)) && k <= |ns| && LayerEval(m, g, ns[..k], xs).Err?
    ensures LayerEval(m, g, ns, xs) == LayerEval(m, g, ns[..k], xs)
    decreases |ns|
  {
    if k < |ns| {
      var init := ns[..|ns| - 1];
      assert init[..k] == ns[..k];
      LayerEvalFailsEarly(m, g, init, xs, k);
    } else {
      assert ns[..k] == ns;
    }
  }

  /**
   * The nodes MLP.Forward appends for layers `ls`, starting from the input
   * nodes `x`: each layer's `LayerRun` in turn on the previous layer's outputs
   * (on `x` for the first), each on the arena the layers before it left, up
   * to and including the first layer that fails; `outs` is then the last
   * layer's outputs (`x` for no layers).
   */
  function MLPRun(m: Libm, g: Arena, ls: seq<Layer>, x: seq<nat>): (r: Run)
    decreases |ls|
  {
    if ls == [] then Run([], x, false)
    else
      var prev := MLPRun(m, g, ls[..|ls| - 1], x);
      if prev.failed then prev else LayerStep(m, g + prev.nodes, prev, ls[|ls| - 1])
  }

  /** The run `prev`, which left arena `h`, followed by layer `l` on its outputs. */
  function LayerStep(m: Libm, h: Arena, prev: Run, l: Layer): Run
  {
    var r := LayerRun(m, h, l.neurons, prev.outs);
    Run(prev.nodes + r.nodes, r.outs, r.failed)
  }

  /** One more layer that runs after `i` layers that did not fail. */
  lemma MLPRunSnoc(m: Libm, g: Arena, ls: seq<Layer>, x: seq<nat>, i: nat, prev: Run, h: Arena, f: Arena)
    requires i < |ls| && prev == MLPRun(m, g, ls[..i], x) && !prev.failed
    requires h == g + prev.nodes && f == h + LayerRun(m, h, ls[i].neurons, prev.outs).nodes
    ensures var r := MLPRun(m, g, ls[..i + 1], x);
      var lr := LayerRun(m, h, ls[i].neurons, prev.outs);
      && f == g + r.nodes
      && r.failed == lr.failed
      && r.outs == lr.outs
  {
    assert ls[..i + 1][..i] == ls[..i];
    assert ls[..i + 1][i] == ls[i];
    AppendTwice(g, prev.nodes, LayerRun(m, h, ls[i].neurons, prev.outs).nodes, h, f);
  }

  /** After the first failing layer nothing more is appended. */
  lemma {:induction false} MLPRunFailsEarly(m: Libm, g: Arena, ls: seq<Layer>, x: seq<nat>, k: nat)
    requires k <= |ls| && MLPRun(m, g, ls[..k], x).failed
    ensures MLPRun(m, g, ls, x) == MLPRun(m, g, ls[..k], x)
    decreases |ls|
  {
    if k < |ls| {
      var init := ls[..|ls| - 1];
      assert init[..k] == ls[..k];
      MLPRunFailsEarly(m, g, init, x, k);
    } else {
      assert ls[..k] == ls;
    }
  }

  /**
   * MLP.Forward: each layer in turn on the previous layer's outputs; the
   * first error is returned, and a final output of any length but 1 is one.
   */
  method MLPForward(g: Graph, mlp: MLP, x: seq<nat>) returns (r: Result<nat>)
    requires g.Valid() && MLPIn(g.nodes, mlp) && AllIn(g.nodes, x)
    modifies g
    ensures g.Valid() && Extends(old(g.nodes), g.nodes)
    ensures var run := MLPRun(g.math, old(g.nodes), mlp.layers, x);
      && g.nodes == old(g.nodes) + run.nodes
      && (r.Err? <==> run.failed || |run.outs| != 1)
      && (r.Ok? ==> run.outs == [r.value])
    ensures var e := MLPOutput(g.math, old(g.nodes), mlp, DataOf(old(g.nodes), x));
      && (r.Err? <==> e.Err?)
      && (r.Err? ==> r.msg == e.msg)
      && (r.Ok? ==> r.value < |g.nodes| && g.nodes[r.value].data == e.value)
  {
    ghost var g0 := g.nodes;
    ghost var xs := DataOf(g0, x);
    var out := x;
    assert mlp.layers[..0] == [];
    assert g.nodes == g0 + [];
    for i := 0 to |mlp.layers|
      invariant g.Valid() && Extends(g0, g.nodes) && AllIn(g.nodes, out)
      invariant MLPEval(g.math, g0, mlp.layers[..i], xs) == Ok(DataOf(g.nodes, out))
      invariant !MLPRun(g.math, g0, mlp.layers[..i], x).failed
      invariant g.nodes == g0 + MLPRun(g.math, g0, mlp.layers[..i], x).nodes
      invariant out == MLPRun(g.math, g0, mlp.layers[..i], x).outs
    {
      ghost var h := g.nodes;
      ghost var prev := MLPRun(g.math, g0, mlp.layers[..i], x);
      LayerEvalExtends(g.math, g0, h, mlp.layers[i].neurons, DataOf(h, out));
      MLPEvalSnoc(g.math, g0, mlp.layers, xs, i, DataOf(h, out));
      var lo := LayerForward(g, mlp.layers[i], out);
      MLPRunSnoc(g.math, g0, mlp.layers, x, i, prev, h, g.nodes);
      ExtendsTrans(g0, h, g.nodes);
      if lo.Err? {
        MLPEvalFailsEarly(g.math, g0, mlp.layers, xs, i + 1);
        MLPRunFailsEarly(g.math, g0, mlp.layers, x, i + 1);
        return Err(lo.msg);
      }
      out := lo.value;
    }
    assert mlp.layers[..|mlp.layers|] == mlp.layers;
    if |out| != 1 {
      return Err(OutputSizeError);
    }
    r := Ok(out[0]);
  }

  // ---------------------------------------------------------------------------
  // ZeroGrad
  // ---------------------------------------------------------------------------

  /** ZeroGrad: every parameter's `Grad` becomes 0; nothing else changes. */
  method ZeroGrad(g: Graph, mlp: MLP)
    requires g.Valid() && MLPIn(g.nodes, mlp)
    modifies g
    ensures g.Valid() && SameShape(old(g.nodes), g.nodes)
    ensures forall k :: 0 <= k < |g.nodes| ==>
      g.nodes[k].grad == if k in MLPParams(mlp.layers) then 0.0 else old(g.nodes)[k].grad
  {
    var ps := MLPParameters(mlp);
    MLPParamsIn(g.nodes, mlp.layers);
    for i := 0 to |ps|
      invariant g.Valid() && SameShape(old(g.nodes), g.nodes)
      invariant forall k :: 0 <= k < |g.nodes| ==>
        g.nodes[k].grad == if k in ps[..i] then 0.0 else old(g.nodes)[k].grad
    {
      assert ps[..i + 1] == ps[..i] + [ps[i]];
      ghost var h := g.nodes;
      g.nodes := g.nodes[ps[i] := g.nodes[ps[i]].(grad := 0.0)];
      SameShapeWellFormed(h, g.nodes);
    }
    assert ps[..|ps|] == ps;
  }

  // ---------------------------------------------------------------------------
  // A network as NewMLP builds it
  // ---------------------------------------------------------------------------

  /**
   * Running the first `k` layers of a network NewMLP built, on an input of
   * the right length, succeeds with one value per neuron of layer k-1.
   */
  lemma {:induction false} ShapedLayersSucceed(m: Libm, g: Arena, mlp: MLP, numInputs: nat, layerSizes: seq<nat>, xs: seq<real>, k: nat)
    requires MLPIn(g, mlp) && Shaped(mlp, numInputs, layerSizes) && |xs| == numInputs && k <= |layerSizes|
    ensures MLPIn(g, MLP(mlp.layers[..k]))
    ensures var r := MLPEval(m, g, mlp.layers[..k], xs); r.Ok? && |r.value| == Dims(numInputs, layerSizes)[k]
  {
    var ls := mlp.layers[..k];
    assert MLPIn(g, MLP(ls));
    if k > 0 {
      ShapedLayersSucceed(m, g, mlp, numInputs, layerSizes, xs, k - 1);
      assert ls[..k - 1] == mlp.layers[..k - 1];
      var h := MLPEval(m, g, mlp.layers[..k - 1], xs).value;
      var l := mlp.layers[k - 1];
      assert LayerShaped(l, Dims(numInputs, layerSizes)[k - 1], layerSizes[k - 1], LayerActivation(k - 1, |layerSizes|));
      forall j | 0 <= j < |l.neurons|
        ensures NeuronEval(m, g, l.neurons[j], h).Ok?
      {
        assert Supported(l.neurons[j].activation);
      }
    }
  }

  /**
   * A network NewMLP built, run on an input of the right length, always
   * produces a single value, and its sigmoid output lies strictly between 0 and 1.
   */
  lemma ShapedOutput(m: Libm, g: Arena, mlp: MLP, numInputs: nat, layerSizes: seq<nat>, xs: seq<real>)
    requires MLPIn(g, mlp) && Shaped(mlp, numInputs, layerSizes) && |xs| == numInputs
    requires |layerSizes| > 0 && layerSizes[|layerSizes| - 1] == 1
    ensures MLPOutput(m, g, mlp, xs).Ok?
    ensures 0.0 < MLPOutput(m, g, mlp, xs).value < 1.0
  {
    var n := |layerSizes|;
    ShapedLayersSucceed(m, g, mlp, numInputs, layerSizes, xs, n - 1);
    ShapedLayersSucceed(m, g, mlp, numInputs, layerSizes, xs, n);
    assert mlp.layers[..n] == mlp.layers;
    var ls := mlp.layers;
    assert ls[..|ls| - 1] == mlp.layers[..n - 1];
    var h := MLPEval(m, g, mlp.layers[..n - 1], xs).value;
    var l := ls[n - 1];
    assert LayerShaped(l, Dims(numInputs, layerSizes)[n - 1], 1, "sigmoid");
    var nr := l.neurons[0];
    assert MLPOutput(m, g, mlp, xs).value == NeuronEval(m, g, nr, h).value;
    assert NeuronEval(m, g, nr, h) == Ok(Logistic(m, WeightedSum(g, nr.weights, h, |h|) + g[nr.bias].data));
  }
}
