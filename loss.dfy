/**
 * The loss builders of micrograd/loss.go.
 *
 * Each loss allocates a fresh running-sum leaf of 0, adds one term per
 * sample to it through new nodes, and finally multiplies the sum by a
 * leaf holding the normalising factor.  The input nodes are only read.
 * Every builder is specified by the exact list of nodes it appends, so the
 * graph that Backward later walks is known node by node.
 */
module Loss {
  import opened Engine

  // ---------------------------------------------------------------------------
  // Mean squared error
  // ---------------------------------------------------------------------------

  /** One MSE term as MSE builds it: ytrue + ypred*(-1), raised to the power 2. */
  function MSETerm(m: Libm, y: real, p: real): real
  {
    Power(m, y + p * -1.0, 2.0)
  }

  /** The running sum of the first `k` MSE terms, from 0. */
  function MSESum(m: Libm, g: Arena, yt: seq<nat>, yp: seq<nat>, k: nat): real
    requires AllIn(g, yt) && AllIn(g, yp) && k <= |yt| && k <= |yp|
  {
    if k == 0 then 0.0 else MSESum(m, g, yt, yp, k - 1) + MSETerm(m, g[yt[k - 1]].data, g[yp[k - 1]].data)
  }

  /** (ytrue[0] - ypred[0])^2 + ... + (ytrue[k-1] - ypred[k-1])^2. */
  function SquaredErrors(g: Arena, yt: seq<nat>, yp: seq<nat>, k: nat): real
    requires AllIn(g, yt) && AllIn(g, yp) && k <= |yt| && k <= |yp|
  {
    if k == 0 then 0.0
    else
      var d := g[yt[k - 1]].data - g[yp[k - 1]].data;
      SquaredErrors(g, yt, yp, k - 1) + d * d
  }

  /**
   * The five nodes one MSE sample appends from index `k` on, given the data
   * `y` of ytrue, `p` of ypred and `s` of the running sum at node `acc`:
   * the -1 leaf and the product of Neg, the difference, its square, and the
   * new running sum.
   */
  function MSESample(m: Libm, y: real, p: real, s: real, yt: nat, yp: nat, acc: nat, k: nat): (b: seq<Value>)
    ensures |b| == 5
  {
    var d := y + p * -1.0;
    [ Value(-1.0, 0.0, Leaf),
      Value(p * -1.0, 0.0, Op.Mul(yp, k)),
      Value(d, 0.0, Op.Add(yt, k + 1)),
      Value(Power(m, d, 2.0), 0.0, Op.Pow(k + 2, 2.0)),
      Value(s + Power(m, d, 2.0), 0.0, Op.Add(acc, k + 3)) ]
  }

  /**
   * The nodes of sample `i` of a loss that starts allocating at `base`: the
   * running sum after `i` samples sits at `base + 5*i`.
   */
  function MSEBlock(m: Libm, g: Arena, yt: seq<nat>, yp: seq<nat>, base: nat, i: nat): (b: seq<Value>)
    requires AllIn(g, yt) && AllIn(g, yp) && i < |yt| && i < |yp|
    ensures |b| == 5
  {
    MSESample(m, g[yt[i]].data, g[yp[i]].data, MSESum(m, g, yt, yp, i), yt[i], yp[i], base + 5 * i, base + 1 + 5 * i)
  }

  /** The running-sum leaf, then the blocks of the first `k` samples. */
  function MSEPrefix(m: Libm, g: Arena, yt: seq<nat>, yp: seq<nat>, base: nat, k: nat): (r: seq<Value>)
    requires AllIn(g, yt) && AllIn(g, yp) && k <= |yt| && k <= |yp|
    ensures |r| == 1 + 5 * k
  {
    if k == 0 then [Value(0.0, 0.0, Leaf)]
    else MSEPrefix(m, g, yt, yp, base, k - 1) + MSEBlock(m, g, yt, yp, base, k - 1)
  }

  /**
   * The two nodes that close a loss whose running sum `s` sits at node
   * `acc`, the last node so far: a leaf holding the factor `c`, and the
   * product.
   */
  function Closing(acc: nat, s: real, c: real): seq<Value>
  {
    [Value(c, 0.0, Leaf), Value(s * c, 0.0, Op.Mul(acc, acc + 1))]
  }

  /** Every node MSE appends to `g`: the running sum, the blocks, the 1/n leaf and the product. */
  function MSENodes(m: Libm, g: Arena, yt: seq<nat>, yp: seq<nat>): (r: seq<Value>)
    requires AllIn(g, yt) && AllIn(g, yp) && 0 < |yt| <= |yp|
    ensures |r| == 5 * |yt| + 3
  {
    var n := |yt|;
    MSEPrefix(m, g, yt, yp, |g|, n) + Closing(|g| + 5 * n, MSESum(m, g, yt, yp, n), 1.0 / (n as real))
  }

  /** acc.Mul(c) on the last node `acc`: the closing step of every loss. */
  method Scale(g: Graph, acc: nat, c: real) returns (out: nat)
    requires g.Valid() && acc == |g.nodes| - 1
    modifies g
    ensures g.Valid() && out == |g.nodes| - 1
    ensures g.nodes == old(g.nodes) + Closing(acc, old(g.nodes)[acc].data, c)
  {
    out := g.Mul(acc, Num(c));
    ghost var h := old(g.nodes);
    assert g.nodes[..out] == h + [Value(c, 0.0, Leaf)];
    assert g.nodes[acc] == h[acc] && g.nodes[|h|].data == c;
    assert g.nodes[out] == Closing(acc, h[acc].data, c)[1];
    assert g.nodes == g.nodes[..out] + [g.nodes[out]];
  }

  /** One pass of MSE's loop: loss.Add(ytrue.Add(ypred.Neg()).Pow(2)). */
  method AddSquaredError(g: Graph, yt: nat, yp: nat, acc: nat) returns (acc': nat)
    requires g.Valid() && yt < |g.nodes| && yp < |g.nodes| && acc < |g.nodes|
    modifies g
    ensures g.Valid() && acc' == |g.nodes| - 1
    ensures var h := old(g.nodes);
      g.nodes == h + MSESample(g.math, h[yt].data, h[yp].data, h[acc].data, yt, yp, acc, |h|)
  {
    var neg := g.Neg(yp);
    var diff := g.Add(yt, Node(neg));
    var sq := g.Pow(diff, 2.0);
    acc' := g.Add(acc, Node(sq));
  }

  /**
   * MSE: the mean of the squared differences.  Appends exactly `MSENodes`
   * and returns the last of them; the input nodes are untouched.
   */
  method MSE(g: Graph, ytrue: seq<nat>, ypred: seq<nat>) returns (loss: nat)
    requires g.Valid() && AllIn(g.nodes, ytrue) && AllIn(g.nodes, ypred)
    requires 0 < |ytrue| <= |ypred|
    modifies g
    ensures g.Valid() && g.nodes == old(g.nodes) + MSENodes(g.math, old(g.nodes), ytrue, ypred)
    ensures loss == |g.nodes| - 1
  {
    ghost var g0 := g.nodes;
    ghost var base := |g0|;
    loss := g.NewLeafValue(0.0);
    for i := 0 to |ytrue|
      invariant g.Valid() && g.nodes == g0 + MSEPrefix(g.math, g0, ytrue, ypred, base, i)
      invariant loss == base + 5 * i
    {
      assert g.nodes[ytrue[i]] == g0[ytrue[i]] && g.nodes[ypred[i]] == g0[ypred[i]];
      assert g.nodes[loss].data == MSESum(g.math, g0, ytrue, ypred, i);
      loss := AddSquaredError(g, ytrue[i], ypred[i], loss);
    }
    assert g.nodes[loss].data == MSESum(g.math, g0, ytrue, ypred, |ytrue|);
    loss := Scale(g, loss, 1.0 / (|ytrue| as real));
  }

  /** The MSE term is the squared difference. */
  lemma MSETermSquare(m: Libm, y: real, p: real)
    ensures MSETerm(m, y, p) == (y - p) * (y - p)
  {
    var d := y + p * -1.0;
    assert d == y - p;
    assert (2.0).Floor == 2;
    assert IntPow(d, 1) == d;
    assert IntPow(d, 2) == d * d;
  }

  /** The running sum MSE builds is the sum of the squared differences. */
  lemma {:induction false} MSESumSquares(m: Libm, g: Arena, yt: seq<nat>, yp: seq<nat>, k: nat)
    requires AllIn(g, yt) && AllIn(g, yp) && k <= |yt| && k <= |yp|
    ensures MSESum(m, g, yt, yp, k) == SquaredErrors(g, yt, yp, k) >= 0.0
  {
    if k > 0 {
      MSESumSquares(m, g, yt, yp, k - 1);
      MSETermSquare(m, g[yt[k - 1]].data, g[yp[k - 1]].data);
    }
  }

  /** Scaling by 1/n is dividing by n, and keeps a sum of non-negative terms non-negative. */
  lemma MeanOf(s: real, n: nat)
    requires n > 0
    ensures s * (1.0 / (n as real)) == s / (n as real)
    ensures s >= 0.0 ==> s / (n as real) >= 0.0
  {
  }

  /** A sum `s` of non-negative terms scaled by 1/n is their mean, and is non-negative. */
  lemma MeanNonNegative(v: real, s: real, total: real, n: nat)
    requires n > 0 && v == s * (1.0 / (n as real)) && s == total >= 0.0
    ensures v == total / (n as real) >= 0.0
  {
    MeanOf(s, n);
  }

  /** The loss MSE returns holds the mean squared error, which is never negative. */
  lemma MSEValue(m: Libm, g: Arena, yt: seq<nat>, yp: seq<nat>)
    requires AllIn(g, yt) && AllIn(g, yp) && 0 < |yt| <= |yp|
    ensures var r := MSENodes(m, g, yt, yp);
      r[|r| - 1].data == SquaredErrors(g, yt, yp, |yt|) / (|yt| as real) >= 0.0
  {
    var n := |yt|;
    var r := MSENodes(m, g, yt, yp);
    var s := MSESum(m, g, yt, yp, n);
    var tail := Closing(|g| + 5 * n, s, 1.0 / (n as real));
    assert r == MSEPrefix(m, g, yt, yp, |g|, n) + tail;
    assert r[|r| - 1] == tail[1];
    MSESumSquares(m, g, yt, yp, n);
    MeanOf(s, n);
    MeanNonNegative(r[|r| - 1].data, s, SquaredErrors(g, yt, yp, n), n);
  }

  // ---------------------------------------------------------------------------
  // Hinge loss
  // ---------------------------------------------------------------------------

  /** One hinge term as HingeLoss builds it: ReLU(ytrue*(-1)*ypred + 1). */
  function HingeTerm(y: real, p: real): real
  {
    Relu(y * -1.0 * p + 1.0)
  }

  /** The running sum of the first `k` hinge terms, from 0. */
  function HingeSum(g: Arena, yt: seq<nat>, yp: seq<nat>, k: nat): real
    requires AllIn(g, yt) && AllIn(g, yp) && k <= |yt| && k <= |yp|
  {
    if k == 0 then 0.0 else HingeSum(g, yt, yp, k - 1) + HingeTerm(g[yt[k - 1]].data, g[yp[k - 1]].data)
  }

  /** max(0, 1 - ytrue[0]*ypred[0]) + ... + max(0, 1 - ytrue[k-1]*ypred[k-1]). */
  function HingeErrors(g: Arena, yt: seq<nat>, yp: seq<nat>, k: nat): real
    requires AllIn(g, yt) && AllIn(g, yp) && k <= |yt| && k <= |yp|
  {
    if k == 0 then 0.0
    else
      var margin := 1.0 - g[yt[k - 1]].data * g[yp[k - 1]].data;
      HingeErrors(g, yt, yp, k - 1) + (if margin > 0.0 then margin else 0.0)
  }

  /**
   * The seven nodes one hinge sample appends from index `k` on, given the
   * data `y` of ytrue, `p` of ypred and `s` of the running sum at node `acc`:
   * the -1 leaf and the product of Neg, the product with ypred, the 1 leaf and
   * the sum, the ReLU, and the new running sum.
   */
  function HingeSample(y: real, p: real, s: real, yt: nat, yp: nat, acc: nat, k: nat): (b: seq<Value>)
    ensures |b| == 7
  {
    var z := y * -1.0 * p + 1.0;
    [ Value(-1.0, 0.0, Leaf),
      Value(y * -1.0, 0.0, Op.Mul(yt, k)),
      Value(y * -1.0 * p, 0.0, Op.Mul(k + 1, yp)),
      Value(1.0, 0.0, Leaf),
      Value(z, 0.0, Op.Add(k + 2, k + 3)),
      Value(Relu(z), 0.0, Op.ReLU(k + 4)),
      Value(s + Relu(z), 0.0, Op.Add(acc, k + 5)) ]
  }

  /** The running-sum leaf, then the nodes of the first `k` hinge samples. */
  function HingePrefix(g: Arena, yt: seq<nat>, yp: seq<nat>, base: nat, k: nat): (r: seq<Value>)
    requires AllIn(g, yt) && AllIn(g, yp) && k <= |yt| && k <= |yp|
    ensures |r| == 1 + 7 * k
  {
    if k == 0 then [Value(0.0, 0.0, Leaf)]
    else
      var i := k - 1;
      HingePrefix(g, yt, yp, base, i) +
        HingeSample(g[yt[i]].data, g[yp[i]].data, HingeSum(g, yt, yp, i), yt[i], yp[i], base + 7 * i, base + 1 + 7 * i)
  }

  /** Every node HingeLoss appends to `g`. */
  function HingeNodes(g: Arena, yt: seq<nat>, yp: seq<nat>): (r: seq<Value>)
    requires AllIn(g, yt) && AllIn(g, yp) && 0 < |yp| <= |yt|
    ensures |r| == 7 * |yp| + 3
  {
    var n := |yp|;
    HingePrefix(g, yt, yp, |g|, n) + Closing(|g| + 7 * n, HingeSum(g, yt, yp, n), 1.0 / (n as real))
  }

  /** One pass of HingeLoss's loop: loss.Add(ytrue.Neg().Mul(ypred).Add(1).ReLU()). */
  method AddHingeTerm(g: Graph, yt: nat, yp: nat, acc: nat) returns (acc': nat)
    requires g.Valid() && yt < |g.nodes| && yp < |g.nodes| && acc < |g.nodes|
    modifies g
    ensures g.Valid() && acc' == |g.nodes| - 1
    ensures var h := old(g.nodes);
      g.nodes == h + HingeSample(h[yt].data, h[yp].data, h[acc].data, yt, yp, acc, |h|)
  {
    ghost var h := g.nodes;
    var neg := g.Neg(yt);
    var prod := g.Mul(neg, Node(yp));
    assert g.nodes[..prod] == h + HingeSample(h[yt].data, h[yp].data, h[acc].data, yt, yp, acc, |h|)[..2];
    assert g.nodes[prod] == HingeSample(h[yt].data, h[yp].data, h[acc].data, yt, yp, acc, |h|)[2];
    assert g.nodes == h + HingeSample(h[yt].data, h[yp].data, h[acc].data, yt, yp, acc, |h|)[..3];
    var shifted := g.Add(prod, Num(1.0));
    var r := g.ReLU(shifted);
    acc' := g.Add(acc, Node(r));
  }

  /**
   * HingeLoss: the mean over the predictions of max(0, 1 - ytrue*ypred).
   * Appends exactly `HingeNodes` and returns the last of them.
   */
  method HingeLoss(g: Graph, ytrue: seq<nat>, ypred: seq<nat>) returns (loss: nat)
    requires g.Valid() && AllIn(g.nodes, ytrue) && AllIn(g.nodes, ypred)
    requires 0 < |ypred| <= |ytrue|
    modifies g
    ensures g.Valid() && g.nodes == old(g.nodes) + HingeNodes(old(g.nodes), ytrue, ypred)
    ensures loss == |g.nodes| - 1
  {
    ghost var g0 := g.nodes;
    ghost var base := |g0|;
    loss := g.NewLeafValue(0.0);
    for i := 0 to |ypred|
      invariant g.Valid() && g.nodes == g0 + HingePrefix(g0, ytrue, ypred, base, i)
      invariant loss == base + 7 * i
    {
      assert g.nodes[ytrue[i]] == g0[ytrue[i]] && g.nodes[ypred[i]] == g0[ypred[i]];
      assert g.nodes[loss].data == HingeSum(g0, ytrue, ypred, i);
      loss := AddHingeTerm(g, ytrue[i], ypred[i], loss);
    }
    assert g.nodes[loss].data == HingeSum(g0, ytrue, ypred, |ypred|);
    loss := Scale(g, loss, 1.0 / (|ypred| as real));
  }

  /** The hinge term is max(0, 1 - y*p). */
  lemma HingeTermMargin(y: real, p: real)
    ensures var margin := 1.0 - y * p;
      HingeTerm(y, p) == (if margin > 0.0 then margin else 0.0)
  {
    assert y * -1.0 * p + 1.0 == 1.0 - y * p;
  }

  /** The running sum HingeLoss builds is the sum of the hinge margins. */
  lemma {:induction false} HingeSumMargins(g: Arena, yt: seq<nat>, yp: seq<nat>, k: nat)
    requires AllIn(g, yt) && AllIn(g, yp) && k <= |yt| && k <= |yp|
    ensures HingeSum(g, yt, yp, k) == HingeErrors(g, yt, yp, k) >= 0.0
  {
    if k > 0 {
      HingeSumMargins(g, yt, yp, k - 1);
      HingeTermMargin(g[yt[k - 1]].data, g[yp[k - 1]].data);
    }
  }

  /** The loss HingeLoss returns holds the mean hinge margin, which is never negative. */
  lemma HingeValue(g: Arena, yt: seq<nat>, yp: seq<nat>)
    requires AllIn(g, yt) && AllIn(g, yp) && 0 < |yp| <= |yt|
    ensures var r := HingeNodes(g, yt, yp);
      r[|r| - 1].data == HingeErrors(g, yt, yp, |yp|) / (|yp| as real) >= 0.0
  {
    var n := |yp|;
    var r := HingeNodes(g, yt, yp);
    assert r[|r| - 1].data == HingeSum(g, yt, yp, n) * (1.0 / (n as real));
    HingeSumMargins(g, yt, yp, n);
    MeanOf(HingeErrors(g, yt, yp, n), n);
  }

  // ---------------------------------------------------------------------------
  // Binary cross-entropy
  // ---------------------------------------------------------------------------

  /** One cross-entropy term as BinaryCrossEntropy builds it, before the factor -1/n. */
  function BCETerm(m: Libm, y: real, p: real): real
  {
    y * ClampedLog(m, p) + (y * -1.0 + 1.0) * ClampedLog(m, p * -1.0 + 1.0)
  }

  /** The running sum of the first `k` cross-entropy terms, from 0. */
  function BCESum(m: Libm, g: Arena, yt: seq<nat>, yp: seq<nat>, k: nat): real
    requires AllIn(g, yt) && AllIn(g, yp) && k <= |yt| && k <= |yp|
  {
    if k == 0 then 0.0 else BCESum(m, g, yt, yp, k - 1) + BCETerm(m, g[yt[k - 1]].data, g[yp[k - 1]].data)
  }

  /** y0*L(p0) + (1-y0)*L(1-p0) + ... over the first `k` samples, L the clamped log. */
  function LogLikelihood(m: Libm, g: Arena, yt: seq<nat>, yp: seq<nat>, k: nat): real
    requires AllIn(g, yt) && AllIn(g, yp) && k <= |yt| && k <= |yp|
  {
    if k == 0 then 0.0
    else
      var y, p := g[yt[k - 1]].data, g[yp[k - 1]].data;
      LogLikelihood(m, g, yt, yp, k - 1) + (y * ClampedLog(m, p) + (1.0 - y) * ClampedLog(m, 1.0 - p))
  }

  /**
   * The fourteen nodes one cross-entropy sample appends from index `k` on,
   * given the data `y` of ytrue, `p` of ypred and `s` of the running sum at
   * node `acc`: log(p) and y*log(p); 1-y through Neg and Add(1); 1-p the same
   * way, its log and the product with 1-y; the sample's sum, and the new
   * running sum.
   */
  function BCESample(m: Libm, y: real, p: real, s: real, yt: nat, yp: nat, acc: nat, k: nat): (b: seq<Value>)
    ensures |b| == 14
  {
    var lp := ClampedLog(m, p);
    var ny := y * -1.0 + 1.0;
    var np := p * -1.0 + 1.0;
    var lnp := ClampedLog(m, np);
    [ Value(lp, 0.0, Op.Log(yp)),
      Value(y * lp, 0.0, Op.Mul(yt, k)),
      Value(-1.0, 0.0, Leaf),
      Value(y * -1.0, 0.0, Op.Mul(yt, k + 2)),
      Value(1.0, 0.0, Leaf),
      Value(ny, 0.0, Op.Add(k + 3, k + 4)),
      Value(-1.0, 0.0, Leaf),
      Value(p * -1.0, 0.0, Op.Mul(yp, k + 6)),
      Value(1.0, 0.0, Leaf),
      Value(np, 0.0, Op.Add(k + 7, k + 8)),
      Value(lnp, 0.0, Op.Log(k + 9)),
      Value(ny * lnp, 0.0, Op.Mul(k + 5, k + 10)),
      Value(y * lp + ny * lnp, 0.0, Op.Add(k + 1, k + 11)),
      Value(s + (y * lp + ny * lnp), 0.0, Op.Add(acc, k + 12)) ]
  }

  /** The running-sum leaf, then the nodes of the first `k` cross-entropy samples. */
  function BCEPrefix(m: Libm, g: Arena, yt: seq<nat>, yp: seq<nat>, base: nat, k: nat): (r: seq<Value>)
    requires AllIn(g, yt) && AllIn(g, yp) && k <= |yt| && k <= |yp|
    ensures |r| == 1 + 14 * k
  {
    if k == 0 then [Value(0.0, 0.0, Leaf)]
    else
      var i := k - 1;
      BCEPrefix(m, g, yt, yp, base, i) +
        BCESample(m, g[yt[i]].data, g[yp[i]].data, BCESum(m, g, yt, yp, i), yt[i], yp[i], base + 14 * i, base + 1 + 14 * i)
  }

  /** Every node BinaryCrossEntropy appends to `g`. */
  function BCENodes(m: Libm, g: Arena, yt: seq<nat>, yp: seq<nat>): (r: seq<Value>)
    requires AllIn(g, yt) && AllIn(g, yp) && 0 < |yt| <= |yp|
    ensures |r| == 14 * |yt| + 3
  {
    var n := |yt|;
    BCEPrefix(m, g, yt, yp, |g|, n) + Closing(|g| + 14 * n, BCESum(m, g, yt, yp, n), -1.0 / (n as real))
  }

  /** ytrue.Mul(ypred.Log()): the first two nodes of a cross-entropy sample. */
  method LogTerm(g: Graph, yt: nat, yp: nat) returns (out: nat)
    requires g.Valid() && yt < |g.nodes| && yp < |g.nodes|
    modifies g
    ensures g.Valid() && out == |g.nodes| - 1
    ensures var h := old(g.nodes);
      g.nodes == h + BCESample(g.math, h[yt].data, h[yp].data, 0.0, yt, yp, 0, |h|)[..2]
  {
    ghost var h := g.nodes;
    var l := g.Log(yp);
    out := g.Mul(yt, Node(l));
    ghost var b := BCESample(g.math, h[yt].data, h[yp].data, 0.0, yt, yp, 0, |h|);
    assert g.nodes[..out] == h + b[..1];
    assert g.nodes[yt] == h[yt];
    assert g.nodes[out] == b[1];
    assert g.nodes == g.nodes[..out] + [g.nodes[out]];
  }

  /** `v.Neg().Add(1)`: the four nodes that compute 1 - v. */
  method OneMinus(g: Graph, v: nat) returns (out: nat)
    requires g.Valid() && v < |g.nodes|
    modifies g
    ensures g.Valid() && out == |old(g.nodes)| + 3
    ensures var h, k := old(g.nodes), |old(g.nodes)|;
      g.nodes == h + [Value(-1.0, 0.0, Leaf), Value(h[v].data * -1.0, 0.0, Op.Mul(v, k)),
                      Value(1.0, 0.0, Leaf), Value(h[v].data * -1.0 + 1.0, 0.0, Op.Add(k + 1, k + 2))]
  {
    var neg := g.Neg(v);
    out := g.Add(neg, Num(1.0));
  }

  /** ytrue.Neg().Add(1).Mul(ypred.Neg().Add(1).Log()): nodes 2 to 11 of a cross-entropy sample. */
  method ComplementTerm(g: Graph, yt: nat, yp: nat, ghost k: nat) returns (out: nat)
    requires g.Valid() && yt < |g.nodes| && yp < |g.nodes| && |g.nodes| == k + 2
    modifies g
    ensures g.Valid() && out == |g.nodes| - 1
    ensures var h := old(g.nodes);
      g.nodes == h + BCESample(g.math, h[yt].data, h[yp].data, 0.0, yt, yp, 0, k)[2..12]
  {
    ghost var h := g.nodes;
    ghost var b := BCESample(g.math, h[yt].data, h[yp].data, 0.0, yt, yp, 0, k);
    var oney := OneMinus(g, yt);
    assert g.nodes == h + b[2..6];
    ghost var h1 := g.nodes;
    assert h1[yp] == h[yp];
    var onep := OneMinus(g, yp);
    assert g.nodes == h1 + b[6..10];
    assert b[2..10] == b[2..6] + b[6..10];
    var l := g.Log(onep);
    assert g.nodes == h + b[2..11];
    ghost var h' := g.nodes;
    out := g.Mul(oney, Node(l));
    assert g.nodes[..out] == h' && g.nodes[oney] == h'[oney] && g.nodes[l] == h'[l];
    assert g.nodes[out] == b[11];
    assert g.nodes == g.nodes[..out] + [g.nodes[out]];
  }

  /** One pass of BinaryCrossEntropy's loop: loss.Add(the sample's log-likelihood). */
  method AddCrossEntropyTerm(g: Graph, yt: nat, yp: nat, acc: nat) returns (acc': nat)
    requires g.Valid() && yt < |g.nodes| && yp < |g.nodes| && acc < |g.nodes|
    modifies g
    ensures g.Valid() && acc' == |g.nodes| - 1
    ensures var h := old(g.nodes);
      g.nodes == h + BCESample(g.math, h[yt].data, h[yp].data, h[acc].data, yt, yp, acc, |h|)
  {
    ghost var h := g.nodes;
    ghost var b := BCESample(g.math, h[yt].data, h[yp].data, h[acc].data, yt, yp, acc, |h|);
    var first := LogTerm(g, yt, yp);
    assert g.nodes == h + b[..2];
    var second := ComplementTerm(g, yt, yp, |h|);
    assert g.nodes == h + b[..12];
    var sample := g.Add(first, Node(second));
    acc' := g.Add(acc, Node(sample));
    assert g.nodes == h + b;
  }

  /** One more sample extends the prefix by that sample's nodes, read from the arena built so far. */
  lemma BCEPrefixStep(m: Libm, g: Arena, yt: seq<nat>, yp: seq<nat>, i: nat, h: Arena)
    requires AllIn(g, yt) && AllIn(g, yp) && i < |yt| && i < |yp|
    requires h == g + BCEPrefix(m, g, yt, yp, |g|, i)
    ensures var acc := |g| + 14 * i;
      acc < |h| && h + BCESample(m, h[yt[i]].data, h[yp[i]].data, h[acc].data, yt[i], yp[i], acc, |h|)
        == g + BCEPrefix(m, g, yt, yp, |g|, i + 1)
  {
    assert h[yt[i]] == g[yt[i]] && h[yp[i]] == g[yp[i]];
    assert h[|g| + 14 * i].data == BCESum(m, g, yt, yp, i);
  }

  /** The loop of BinaryCrossEntropy: the running-sum leaf and one block of nodes per target. */
  method CrossEntropySum(g: Graph, ytrue: seq<nat>, ypred: seq<nat>) returns (loss: nat)
    requires g.Valid() && AllIn(g.nodes, ytrue) && AllIn(g.nodes, ypred) && |ytrue| <= |ypred|
    modifies g
    ensures g.Valid() && g.nodes == old(g.nodes) + BCEPrefix(g.math, old(g.nodes), ytrue, ypred, |old(g.nodes)|, |ytrue|)
    ensures loss == |g.nodes| - 1
  {
    ghost var g0 := g.nodes;
    ghost var base := |g0|;
    loss := g.NewLeafValue(0.0);
    for i := 0 to |ytrue|
      invariant g.Valid() && g.nodes == g0 + BCEPrefix(g.math, g0, ytrue, ypred, base, i)
      invariant loss == base + 14 * i
    {
      BCEPrefixStep(g.math, g0, ytrue, ypred, i, g.nodes);
      loss := AddCrossEntropyTerm(g, ytrue[i], ypred[i], loss);
    }
  }

  /**
   * BinaryCrossEntropy: minus the mean over the targets of
   * y*L(p) + (1-y)*L(1-p), L the clamped log.  Appends exactly `BCENodes`
   * and returns the last of them.
   */
  method BinaryCrossEntropy(g: Graph, ytrue: seq<nat>, ypred: seq<nat>) returns (loss: nat)
    requires g.Valid() && AllIn(g.nodes, ytrue) && AllIn(g.nodes, ypred)
    requires 0 < |ytrue| <= |ypred|
    modifies g
    ensures g.Valid() && g.nodes == old(g.nodes) + BCENodes(g.math, old(g.nodes), ytrue, ypred)
    ensures loss == |g.nodes| - 1
  {
    ghost var g0 := g.nodes;
    loss := CrossEntropySum(g, ytrue, ypred);
    assert g.nodes[loss].data == BCESum(g.math, g0, ytrue, ypred, |ytrue|);
    loss := Scale(g, loss, -1.0 / (|ytrue| as real));
  }

  /** The running sum BinaryCrossEntropy builds is the log-likelihood. */
  lemma {:induction false} BCESumLikelihood(m: Libm, g: Arena, yt: seq<nat>, yp: seq<nat>, k: nat)
    requires AllIn(g, yt) && AllIn(g, yp) && k <= |yt| && k <= |yp|
    ensures BCESum(m, g, yt, yp, k) == LogLikelihood(m, g, yt, yp, k)
  {
    if k > 0 {
      BCESumLikelihood(m, g, yt, yp, k - 1);
      var y, p := g[yt[k - 1]].data, g[yp[k - 1]].data;
      assert y * -1.0 + 1.0 == 1.0 - y && p * -1.0 + 1.0 == 1.0 - p;
    }
  }

  /** The loss BinaryCrossEntropy returns holds minus the mean log-likelihood. */
  lemma BCEValue(m: Libm, g: Arena, yt: seq<nat>, yp: seq<nat>)
    requires AllIn(g, yt) && AllIn(g, yp) && 0 < |yt| <= |yp|
    ensures var r := BCENodes(m, g, yt, yp);
      r[|r| - 1].data == -(LogLikelihood(m, g, yt, yp, |yt|) / (|yt| as real))
  {
    var n := |yt|;
    var r := BCENodes(m, g, yt, yp);
    var s := BCESum(m, g, yt, yp, n);
    assert r[|r| - 1].data == s * (-1.0 / (n as real));
    BCESumLikelihood(m, g, yt, yp, n);
    assert s * (-1.0 / (n as real)) == -(s / (n as real));
  }
}
