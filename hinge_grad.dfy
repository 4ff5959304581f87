/**
 * The gradient Backward leaves in a prediction after HingeLoss is built over
 * it (micrograd/loss.go, `HingeLoss`, together with the ReLU rule of
 * micrograd/engine.go): the ReLU gate of the sample decides whether any
 * gradient reaches the prediction at all.
 *
 * The argument follows the one for MSE: the shape of the graph gives every
 * node on the path from the root to ypred[i] a single reachable parent.
 */
module HingeGradients {
  import opened Engine
  import opened Adjoint
  import opened Loss
  import opened LossGradients

  // ---------------------------------------------------------------------------
  // The shape of the hinge graph
  // ---------------------------------------------------------------------------

  /**
   * The operation HingeLoss puts at index `x` of a graph it starts building
   * at `base`: the running-sum leaf, seven nodes per sample (the -1 leaf, the
   * product of Neg, the product with ypred, the 1 leaf, the sum, the ReLU,
   * the running sum), the 1/n leaf and the root product.
   */
  function HingeOp(yt: seq<nat>, yp: seq<nat>, base: nat, n: nat, x: nat): Op
    requires n <= |yt| && n <= |yp| && base <= x < base + 7 * n + 3
  {
    var t := x - base;
    if t == 0 || t == 7 * n + 1 then Leaf
    else if t == 7 * n + 2 then Op.Mul(base + 7 * n, base + 7 * n + 1)
    else
      var j, r := (t - 1) / 7, (t - 1) % 7;
      if r == 1 then Op.Mul(yt[j], x - 1)
      else if r == 2 then Op.Mul(x - 1, yp[j])
      else if r == 4 then Op.Add(x - 2, x - 1)
      else if r == 5 then Op.ReLU(x - 1)
      else if r == 6 then Op.Add(base + 7 * j, x - 1)
      else Leaf
  }

  /** The operation of entry `r` of hinge sample `i`, the sample's first node sitting at `base + 1 + 7*i`. */
  function HingeBlockOp(yt: seq<nat>, yp: seq<nat>, base: nat, i: nat, r: nat): Op
    requires i < |yt| && i < |yp|
  {
    var k := base + 1 + 7 * i;
    if r == 1 then Op.Mul(yt[i], k)
    else if r == 2 then Op.Mul(k + 1, yp[i])
    else if r == 4 then Op.Add(k + 2, k + 3)
    else if r == 5 then Op.ReLU(k + 4)
    else if r == 6 then Op.Add(base + 7 * i, k + 5)
    else Leaf
  }

  /** `HingeOp` inside sample `i`. */
  lemma HingeOpInBlock(yt: seq<nat>, yp: seq<nat>, base: nat, n: nat, i: nat, r: nat)
    requires n <= |yt| && n <= |yp| && i < n && r < 7
    ensures HingeOp(yt, yp, base, n, base + 1 + 7 * i + r) == HingeBlockOp(yt, yp, base, i, r)
  {
    var t := 1 + 7 * i + r;
    assert (t - 1) / 7 == i && (t - 1) % 7 == r;
  }

  /** Entry `t` of the hinge prefix: the running-sum leaf, or entry (t-1)%7 of sample (t-1)/7. */
  lemma {:induction false} HingePrefixAt(g: Arena, yt: seq<nat>, yp: seq<nat>, base: nat, k: nat, t: nat)
    requires AllIn(g, yt) && AllIn(g, yp) && k <= |yt| && k <= |yp| && t < 1 + 7 * k
    ensures 0 < t ==> 0 <= (t - 1) / 7 < k
    ensures var i := (t - 1) / 7;
      HingePrefix(g, yt, yp, base, k)[t] ==
        if t == 0 then Value(0.0, 0.0, Leaf)
        else HingeSample(g[yt[i]].data, g[yp[i]].data, HingeSum(g, yt, yp, i), yt[i], yp[i], base + 7 * i, base + 1 + 7 * i)[(t - 1) % 7]
    decreases k
  {
    if k > 0 {
      if t < 1 + 7 * (k - 1) {
        HingePrefixAt(g, yt, yp, base, k - 1, t);
      } else {
        assert (t - 1) / 7 == k - 1;
      }
    }
  }

  /** Every node HingeLoss allocates has the operation `HingeOp` describes and a zero `Grad`. */
  lemma HingeShape(g: Arena, yt: seq<nat>, yp: seq<nat>, x: nat)
    requires AllIn(g, yt) && AllIn(g, yp) && 0 < |yp| <= |yt| && |g| <= x < |g| + 7 * |yp| + 3
    ensures var h := g + HingeNodes(g, yt, yp);
      h[x].op == HingeOp(yt, yp, |g|, |yp|, x) && h[x].grad == 0.0
  {
    var n, t := |yp|, x - |g|;
    if t < 1 + 7 * n {
      HingePrefixAt(g, yt, yp, |g|, n, t);
    }
  }

  /**
   * In the arena HingeLoss leaves behind, sample `i`'s product of Neg holds
   * -ytrue[i] and its sum node the margin 1 - ytrue[i]*ypred[i], as computed.
   */
  lemma HingeSampleData(g: Arena, yt: seq<nat>, yp: seq<nat>, i: nat)
    requires AllIn(g, yt) && AllIn(g, yp) && 0 < |yp| <= |yt| && i < |yp|
    ensures var h := g + HingeNodes(g, yt, yp);
      && h[|g| + 7 * i + 2].data == g[yt[i]].data * -1.0
      && h[|g| + 7 * i + 5].data == g[yt[i]].data * -1.0 * g[yp[i]].data + 1.0
  {
    HingeSampleAt(g, yt, yp, i, 1);
    HingeSampleAt(g, yt, yp, i, 4);
    assert |g| + 7 * i + 2 == |g| + 1 + 7 * i + 1 && |g| + 7 * i + 5 == |g| + 1 + 7 * i + 4;
  }

  /** Node `base + 1 + 7*i + r` of the hinge graph is entry `r` of sample `i`. */
  lemma HingeSampleAt(g: Arena, yt: seq<nat>, yp: seq<nat>, i: nat, r: nat)
    requires AllIn(g, yt) && AllIn(g, yp) && 0 < |yp| <= |yt| && i < |yp| && r < 7
    ensures (g + HingeNodes(g, yt, yp))[|g| + 1 + 7 * i + r] ==
      HingeSample(g[yt[i]].data, g[yp[i]].data, HingeSum(g, yt, yp, i), yt[i], yp[i], |g| + 7 * i, |g| + 1 + 7 * i)[r]
  {
    var t := 1 + 7 * i + r;
    assert (t - 1) / 7 == i && (t - 1) % 7 == r;
    HingePrefixAt(g, yt, yp, |g|, |yp|, t);
  }

  /** Outside the running-sum chain, a hinge node's operands are that sample's inputs or nodes of the same sample. */
  lemma HingeOpChildren(yt: seq<nat>, yp: seq<nat>, base: nat, n: nat, x: nat, c: nat)
    requires n <= |yt| && n <= |yp| && base <= x < base + 7 * n + 3 && c in Children(HingeOp(yt, yp, base, n, x))
    ensures base <= c || (0 <= (x - base - 1) / 7 < n && (c == yt[(x - base - 1) / 7] || c == yp[(x - base - 1) / 7]))
  {
  }

  /** Only the next running sum, or the root for the last one, has the running sum after `j` samples as an operand. */
  lemma HingeAccParent(yt: seq<nat>, yp: seq<nat>, base: nat, n: nat, j: nat, x: nat)
    requires n <= |yt| && n <= |yp| && j <= n && base <= x < base + 7 * n + 3
    requires InputsBelow(yt, yp, n, base)
    ensures base + 7 * j in Children(HingeOp(yt, yp, base, n, x)) ==>
      x == if j == n then base + 7 * n + 2 else base + 7 * j + 7
  {
    BlockIndex(x - base, 7);
  }

  /** The entry a gradient flows to from entry `r` of a hinge sample: the sum takes both products' places. */
  function HingeUp(r: nat): nat
  {
    if r == 2 then 4 else r + 1
  }

  /** Entry `r` of a hinge sample (2, 4 or 5) is an operand of the entry above it. */
  lemma HingeUpChild(yt: seq<nat>, yp: seq<nat>, base: nat, i: nat, r: nat)
    requires i < |yt| && i < |yp| && (r == 2 || r == 4 || r == 5)
    ensures base + 1 + 7 * i + r in Children(HingeBlockOp(yt, yp, base, i, HingeUp(r)))
  {
  }

  /** The product with ypred, the sum and the ReLU of sample `j` each have one parent in the graph. */
  lemma HingeInnerParent(yt: seq<nat>, yp: seq<nat>, base: nat, n: nat, j: nat, r: nat, x: nat)
    requires n <= |yt| && n <= |yp| && j < n && (r == 2 || r == 4 || r == 5) && base <= x < base + 7 * n + 3
    requires InputsBelow(yt, yp, n, base)
    ensures base + 1 + 7 * j + r in Children(HingeOp(yt, yp, base, n, x)) ==> x == base + 1 + 7 * j + HingeUp(r)
  {
    BlockIndex(x - base, 7);
  }

  /** An unshared prediction's only parent in the hinge graph is its product with the negated target. */
  lemma HingeInputParent(yt: seq<nat>, yp: seq<nat>, base: nat, n: nat, i: nat, x: nat)
    requires n <= |yt| && n <= |yp| && i < n && Unshared(yt, yp, n, i) && yp[i] < base
    requires base <= x < base + 7 * n + 3
    ensures yp[i] in Children(HingeOp(yt, yp, base, n, x)) ==> x == base + 7 * i + 3
  {
    var t := x - base;
    if 0 < t < 7 * n + 1 && yp[i] in Children(HingeOp(yt, yp, base, n, x)) {
      var j := (t - 1) / 7;
      assert yp[j] == yp[i];
    }
  }

  /**
   * `h` has the shape HingeLoss gives the nodes from `base` on, over inputs
   * that are leaves allocated before `base`: the running-sum leaf, seven
   * nodes per sample as `HingeBlockOp` describes, the 1/n leaf and the root
   * product, all with a zero `Grad`.
   */
  ghost predicate HingeShaped(h: Arena, base: nat, yt: seq<nat>, yp: seq<nat>)
  {
    && 0 < |yp| <= |yt| && |h| == base + 7 * |yp| + 3 && WellFormed(h)
    && InputsBelow(yt, yp, |yp|, base)
    && (forall j :: 0 <= j < |yp| ==> h[yt[j]].op.Leaf? && h[yp[j]].op.Leaf?)
    && h[base].op.Leaf? && h[base].grad == 0.0
    && (forall i, r :: 0 <= i < |yp| && 0 <= r < 7 ==>
          h[base + 1 + 7 * i + r].op == HingeBlockOp(yt, yp, base, i, r) && h[base + 1 + 7 * i + r].grad == 0.0)
    && h[base + 7 * |yp| + 1].op.Leaf? && h[base + 7 * |yp| + 1].grad == 0.0
    && h[base + 7 * |yp| + 1].data == 1.0 / (|yp| as real)
    && h[base + 7 * |yp| + 2].op == Op.Mul(base + 7 * |yp|, base + 7 * |yp| + 1) && h[base + 7 * |yp| + 2].grad == 0.0
  }

  /** Every node of a hinge-shaped arena from `base` on has the operation `HingeOp` describes and a zero `Grad`. */
  lemma HingeShapedAt(h: Arena, base: nat, yt: seq<nat>, yp: seq<nat>, x: nat)
    requires HingeShaped(h, base, yt, yp) && base <= x < |h|
    ensures h[x].op == HingeOp(yt, yp, base, |yp|, x) && h[x].grad == 0.0
  {
    var n, t := |yp|, x - base;
    if 0 < t < 7 * n + 1 {
      BlockIndex(t, 7);
      var i, r := (t - 1) / 7, (t - 1) % 7;
      HingeOpInBlock(yt, yp, base, n, i, r);
      assert h[base + 1 + 7 * i + r].op == HingeBlockOp(yt, yp, base, i, r);
    }
  }

  /** The arena HingeLoss leaves behind has the hinge shape. */
  lemma HingeGraphShaped(g: Arena, yt: seq<nat>, yp: seq<nat>)
    requires AllIn(g, yt) && AllIn(g, yp) && 0 < |yp| <= |yt|
    requires WellFormed(g + HingeNodes(g, yt, yp)) && LeafInputs(g, yt, yp, |yp|)
    ensures HingeShaped(g + HingeNodes(g, yt, yp), |g|, yt, yp)
  {
    var h := g + HingeNodes(g, yt, yp);
    forall x | |g| <= x < |h|
      ensures h[x].op == HingeOp(yt, yp, |g|, |yp|, x) && h[x].grad == 0.0
    {
      HingeShape(g, yt, yp, x);
    }
    forall i, r | 0 <= i < |yp| && 0 <= r < 7
      ensures h[|g| + 1 + 7 * i + r].op == HingeBlockOp(yt, yp, |g|, i, r) && h[|g| + 1 + 7 * i + r].grad == 0.0
    {
      HingeOpInBlock(yt, yp, |g|, |yp|, i, r);
    }
    forall j | 0 <= j < |yp|
      ensures h[yt[j]].op.Leaf? && h[yp[j]].op.Leaf?
    {
      assert h[yt[j]] == g[yt[j]] && h[yp[j]] == g[yp[j]];
    }
  }

  // ---------------------------------------------------------------------------
  // Backward through the hinge graph
  // ---------------------------------------------------------------------------

  /** What the root of a hinge-shaped arena reaches is either allocated by HingeLoss or an input leaf. */
  lemma HingeReach(h: Arena, base: nat, yt: seq<nat>, yp: seq<nat>, x: nat)
    requires HingeShaped(h, base, yt, yp) && x in Reach(h, |h| - 1)
    ensures x < |h| && (x < base ==> h[x].op.Leaf?)
  {
    var n := |yp|;
    var s := set y: nat | y < |h| && (base <= y || h[y].op.Leaf?);
    forall y, c | y in s && y < |h| && c in Children(h[y].op)
      ensures c in s
    {
      BelowChildren(h[y].op, y, c);
      if base <= y {
        HingeShapedAt(h, base, yt, yp, y);
        HingeOpChildren(yt, yp, base, n, y, c);
      }
    }
    ClosedContainsReach(h, s, |h| - 1);
  }

  /** Below `base`, the root of a hinge-shaped arena reaches only leaves. */
  lemma HingeLeavesBelow(h: Arena, base: nat, yt: seq<nat>, yp: seq<nat>)
    requires HingeShaped(h, base, yt, yp)
    ensures LeavesBelow(h, |h| - 1, base)
  {
    forall x | x in Reach(h, |h| - 1) && x < base
      ensures h[x].op.Leaf?
    {
      HingeReach(h, base, yt, yp, x);
    }
  }

  /** In a hinge-shaped arena, a node whose only possible parent from `base` on is `q` has no other parent from there. */
  lemma HingeOnlyParent(h: Arena, base: nat, yt: seq<nat>, yp: seq<nat>, c: nat, q: nat)
    requires HingeShaped(h, base, yt, yp)
    requires forall x :: base <= x < |h| ==> (c in Children(HingeOp(yt, yp, base, |yp|, x)) ==> x == q)
    ensures forall x :: base <= x < |h| && x != q ==> c !in Children(h[x].op)
  {
    forall x | base <= x < |h| && x != q
      ensures c !in Children(h[x].op)
    {
      HingeShapedAt(h, base, yt, yp, x);
    }
  }

  /**
   * The running sum after `j` samples has one parent, the next running sum
   * or the root for the last, and starts with a zero `Grad`.
   */
  lemma HingeAccOnlyParent(h: Arena, base: nat, yt: seq<nat>, yp: seq<nat>, j: nat, q: nat)
    requires HingeShaped(h, base, yt, yp) && j <= |yp|
    requires q == if j == |yp| then |h| - 1 else base + 7 * j + 7
    ensures Link(h, 0, base + 7 * j, q)
  {
    if j < |yp| {
      assert q == base + 1 + 7 * j + 6;
      assert h[q].op == HingeBlockOp(yt, yp, base, j, 6);
    } else {
      assert h[q].op == Op.Mul(base + 7 * j, base + 7 * j + 1);
    }
    if j > 0 {
      assert base + 7 * j == base + 1 + 7 * (j - 1) + 6;
      assert h[base + 7 * j].op == HingeBlockOp(yt, yp, base, j - 1, 6);
    }
    forall x | base <= x < |h|
      ensures base + 7 * j in Children(HingeOp(yt, yp, base, |yp|, x)) ==> x == q
    {
      HingeAccParent(yt, yp, base, |yp|, j, x);
    }
    HingeOnlyParent(h, base, yt, yp, base + 7 * j, q);
    OnlyParentAbove(h, base, base + 7 * j, q);
  }

  /**
   * The product with ypred, the sum and the ReLU of sample `i` (entries 2,
   * 4 and 5) each have one parent, the entry `u` that `HingeUp` names, and
   * start with a zero `Grad`.
   */
  lemma HingeInnerLink(h: Arena, base: nat, yt: seq<nat>, yp: seq<nat>, i: nat, r: nat, u: nat)
    requires HingeShaped(h, base, yt, yp) && i < |yp| && (r == 2 || r == 4 || r == 5) && u == HingeUp(r)
    ensures Link(h, 0, base + 7 * i + 1 + r, base + 7 * i + 1 + u)
    ensures h[base + 7 * i + 1 + u].op == HingeBlockOp(yt, yp, base, i, u)
  {
    var c, q := base + 1 + 7 * i + r, base + 1 + 7 * i + u;
    assert h[q].op == HingeBlockOp(yt, yp, base, i, u);
    assert h[c].op == HingeBlockOp(yt, yp, base, i, r) && h[c].grad == 0.0;
    HingeUpChild(yt, yp, base, i, r);
    forall x | base <= x < |h|
      ensures c in Children(HingeOp(yt, yp, base, |yp|, x)) ==> x == q
    {
      HingeInnerParent(yt, yp, base, |yp|, i, r, x);
    }
    HingeOnlyParent(h, base, yt, yp, c, q);
    OnlyParentAbove(h, base, c, q);
  }

  /**
   * An unshared prediction has one parent from `base` on, its product with
   * the negated target, and nothing below `base` that the root reaches has
   * operands.
   */
  lemma HingeInputLink(h: Arena, base: nat, yt: seq<nat>, yp: seq<nat>, i: nat)
    requires HingeShaped(h, base, yt, yp) && i < |yp| && Unshared(yt, yp, |yp|, i) && h[yp[i]].grad == 0.0
    ensures Link(h, base, yp[i], base + 7 * i + 3) && h[base + 7 * i + 3].op == Op.Mul(base + 7 * i + 2, yp[i])
    ensures LeavesBelow(h, |h| - 1, base)
  {
    assert base + 7 * i + 3 == base + 1 + 7 * i + 2;
    assert h[base + 1 + 7 * i + 2].op == HingeBlockOp(yt, yp, base, i, 2);
    forall x | base <= x < |h|
      ensures yp[i] in Children(HingeOp(yt, yp, base, |yp|, x)) ==> x == base + 7 * i + 3
    {
      HingeInputParent(yt, yp, base, |yp|, i, x);
    }
    HingeOnlyParent(h, base, yt, yp, yp[i], base + 7 * i + 3);
    HingeLeavesBelow(h, base, yt, yp);
  }

  /** The running sum after `j` samples is a link to the next running sum. */
  ghost predicate HingeAccLink(h: Arena, base: nat, j: nat)
  {
    && base + 7 * j + 7 < |h|
    && Link(h, 0, base + 7 * j, base + 7 * j + 7)
    && h[base + 7 * j + 7].op == Op.Add(base + 7 * j, base + 7 * j + 6)
  }

  /**
   * The path from the root of a hinge graph of `n` samples built from
   * `base` down its running sums: the root multiplies the last running sum
   * by the 1/n leaf, and each running sum adds a ReLU to the one before.
   */
  ghost predicate HingeAccPath(h: Arena, base: nat, n: nat)
  {
    && 0 < n && |h| == base + 7 * n + 3 && WellFormed(h)
    && Link(h, 0, base + 7 * n, |h| - 1)
    && h[|h| - 1].op == Op.Mul(base + 7 * n, base + 7 * n + 1)
    && h[base + 7 * n + 1].data == 1.0 / (n as real)
    && forall j :: 0 <= j < n ==> HingeAccLink(h, base, j)
  }

  /**
   * The path through sample `i` of a hinge graph built from `base`, from
   * its ReLU down to the prediction `pred`: the running sum adds the ReLU,
   * the ReLU gates the sum, the sum adds the 1 leaf to the product of the
   * negated target and the prediction; below `base` the root reaches only
   * leaves.
   */
  ghost predicate HingeSamplePath(h: Arena, base: nat, i: nat, pred: nat)
  {
    && WellFormed(h) && base + 7 * i + 7 < |h|
    && Link(h, 0, base + 7 * i + 6, base + 7 * i + 7) && h[base + 7 * i + 7].op == Op.Add(base + 7 * i, base + 7 * i + 6)
    && Link(h, 0, base + 7 * i + 5, base + 7 * i + 6) && h[base + 7 * i + 6].op == Op.ReLU(base + 7 * i + 5)
    && Link(h, 0, base + 7 * i + 3, base + 7 * i + 5) && h[base + 7 * i + 5].op == Op.Add(base + 7 * i + 3, base + 7 * i + 4)
    && Link(h, base, pred, base + 7 * i + 3) && h[base + 7 * i + 3].op == Op.Mul(base + 7 * i + 2, pred)
    && pred != base + 7 * i + 2
    && LeavesBelow(h, |h| - 1, base)
  }

  /** The running sums of a hinge-shaped arena as the links of the path from its root. */
  lemma HingeAccPathOf(h: Arena, base: nat, yt: seq<nat>, yp: seq<nat>)
    requires HingeShaped(h, base, yt, yp)
    ensures HingeAccPath(h, base, |yp|)
  {
    HingeAccOnlyParent(h, base, yt, yp, |yp|, |h| - 1);
    forall j | 0 <= j < |yp|
      ensures HingeAccLink(h, base, j)
    {
      HingeAccOnlyParent(h, base, yt, yp, j, base + 7 * j + 7);
      assert base + 7 * j + 7 == base + 1 + 7 * j + 6;
      assert h[base + 7 * j + 7].op == HingeBlockOp(yt, yp, base, j, 6);
    }
  }

  /** The nodes of sample `i` of a hinge-shaped arena as the links of the path from its running sum to an unshared prediction. */
  lemma HingeSamplePathOf(h: Arena, base: nat, yt: seq<nat>, yp: seq<nat>, i: nat)
    requires HingeShaped(h, base, yt, yp) && i < |yp| && Unshared(yt, yp, |yp|, i) && h[yp[i]].grad == 0.0
    ensures HingeSamplePath(h, base, i, yp[i])
  {
    HingeInnerLink(h, base, yt, yp, i, 2, 4);
    HingeInnerLink(h, base, yt, yp, i, 4, 5);
    HingeInnerLink(h, base, yt, yp, i, 5, 6);
    HingeInputLink(h, base, yt, yp, i);
  }

  /** The running sums on the path from the root of a hinge graph are reachable from it. */
  lemma {:induction false} HingeAccReach(h: Arena, base: nat, n: nat, j: nat)
    requires HingeAccPath(h, base, n) && j <= n
    ensures base + 7 * j in Reach(h, |h| - 1)
    decreases n - j
  {
    if j == n {
      assert |h| - 1 in Reach(h, |h| - 1);
      ReachClosed(h, |h| - 1, |h| - 1, base + 7 * j);
    } else {
      HingeAccReach(h, base, n, j + 1);
      assert base + 7 * (j + 1) == base + 7 * j + 7;
      assert HingeAccLink(h, base, j);
      ReachClosed(h, |h| - 1, base + 7 * j + 7, base + 7 * j);
    }
  }

  /** The ReLU, the sum and the product with ypred of sample `i` are reachable from the root of a hinge graph. */
  lemma HingeSampleReach(h: Arena, base: nat, n: nat, i: nat, pred: nat)
    requires HingeAccPath(h, base, n) && i < n && HingeSamplePath(h, base, i, pred)
    ensures base + 7 * i + 7 in Reach(h, |h| - 1) && base + 7 * i + 6 in Reach(h, |h| - 1)
    ensures base + 7 * i + 5 in Reach(h, |h| - 1) && base + 7 * i + 3 in Reach(h, |h| - 1)
  {
    HingeAccReach(h, base, n, i + 1);
    assert base + 7 * (i + 1) == base + 7 * i + 7;
    ReachClosed(h, |h| - 1, base + 7 * i + 7, base + 7 * i + 6);
    ReachClosed(h, |h| - 1, base + 7 * i + 6, base + 7 * i + 5);
    ReachClosed(h, |h| - 1, base + 7 * i + 5, base + 7 * i + 3);
  }

  /**
   * After Backward from the root of a hinge graph, the running sum after
   * `j` samples holds the gradient 1/n.
   */
  lemma {:induction false} HingeAccGrad(m: Libm, h: Arena, base: nat, n: nat, r: Arena, j: nat)
    requires HingeAccPath(h, base, n) && Backpropagated(m, h, |h| - 1, r) && j <= n
    ensures r[base + 7 * j].grad == 1.0 / (n as real)
    decreases n - j
  {
    if j == n {
      assert |h| - 1 in Reach(h, |h| - 1);
      MulGrad(m, h, |h| - 1, r, 0, base + 7 * j, |h| - 1, base + 7 * j + 1);
    } else {
      HingeAccReach(h, base, n, j + 1);
      assert base + 7 * (j + 1) == base + 7 * j + 7;
      assert HingeAccLink(h, base, j);
      AddGrad(m, h, |h| - 1, r, 0, base + 7 * j, base + 7 * j + 7, base + 7 * j + 6);
      HingeAccGrad(m, h, base, n, r, j + 1);
    }
  }

  /** After Backward from the root of a hinge graph, the ReLU of sample `i` holds 1/n. */
  lemma HingeReluGrad(m: Libm, h: Arena, base: nat, n: nat, r: Arena, i: nat, pred: nat)
    requires HingeAccPath(h, base, n) && i < n && HingeSamplePath(h, base, i, pred)
    requires Backpropagated(m, h, |h| - 1, r)
    ensures r[base + 7 * i + 6].grad == 1.0 / (n as real)
  {
    HingeSampleReach(h, base, n, i, pred);
    assert base + 7 * (i + 1) == base + 7 * i + 7;
    AddGrad(m, h, |h| - 1, r, 0, base + 7 * i + 6, base + 7 * i + 7, base + 7 * i);
    HingeAccGrad(m, h, base, n, r, i + 1);
  }

  /**
   * After Backward from the root of a hinge graph whose sample `i` holds the
   * margin `z` in its sum node, that sum node holds 1/n when the ReLU gate
   * is open (z > 0) and 0 when it is closed.
   */
  lemma HingeSumGrad(m: Libm, h: Arena, base: nat, n: nat, r: Arena, i: nat, pred: nat, z: real)
    requires HingeAccPath(h, base, n) && i < n && HingeSamplePath(h, base, i, pred)
    requires Backpropagated(m, h, |h| - 1, r) && h[base + 7 * i + 5].data == z
    ensures r[base + 7 * i + 5].grad == if z > 0.0 then 1.0 / (n as real) else 0.0
  {
    HingeSampleReach(h, base, n, i, pred);
    ReluGrad(m, h, |h| - 1, r, 0, base + 7 * i + 5, base + 7 * i + 6);
    HingeReluGrad(m, h, base, n, r, i, pred);
  }

  /**
   * After Backward from the root of a hinge graph whose sample `i` holds the
   * margin `z`, the product of the negated target and ypred holds what the
   * sum node holds.
   */
  lemma HingeProdGrad(m: Libm, h: Arena, base: nat, n: nat, r: Arena, i: nat, pred: nat, z: real)
    requires HingeAccPath(h, base, n) && i < n && HingeSamplePath(h, base, i, pred)
    requires Backpropagated(m, h, |h| - 1, r) && h[base + 7 * i + 5].data == z
    ensures r[base + 7 * i + 3].grad == if z > 0.0 then 1.0 / (n as real) else 0.0
  {
    HingeSampleReach(h, base, n, i, pred);
    AddGrad(m, h, |h| - 1, r, 0, base + 7 * i + 3, base + 7 * i + 5, base + 7 * i + 4);
    HingeSumGrad(m, h, base, n, r, i, pred, z);
  }

  /**
   * After Backward from the root of a hinge graph whose sample `i` holds
   * `d` in its product of Neg and the margin `z` in its sum node, the
   * prediction at the end of the sample's path holds the gated 1/n times d.
   */
  lemma HingeInputGrad(m: Libm, h: Arena, base: nat, n: nat, r: Arena, i: nat, pred: nat, z: real, d: real)
    requires HingeAccPath(h, base, n) && i < n && HingeSamplePath(h, base, i, pred)
    requires Backpropagated(m, h, |h| - 1, r)
    requires h[base + 7 * i + 2].data == d && h[base + 7 * i + 5].data == z
    ensures r[pred].grad == 0.0 + (if z > 0.0 then 1.0 / (n as real) else 0.0) * d
  {
    HingeSampleReach(h, base, n, i, pred);
    MulGrad(m, h, |h| - 1, r, base, pred, base + 7 * i + 3, base + 7 * i + 2);
    HingeProdGrad(m, h, base, n, r, i, pred, z);
  }

  /** The gated slope -y/n, written the way the rules compute it. */
  lemma HingeGradArith(n: nat, y: real, p: real, pred: real)
    requires n > 0 && pred == 0.0 + (if y * -1.0 * p + 1.0 > 0.0 then 1.0 / (n as real) else 0.0) * (y * -1.0)
    ensures pred == if 1.0 - y * p > 0.0 then -y / (n as real) else 0.0
  {
    assert y * -1.0 * p + 1.0 == 1.0 - y * p;
  }

  /**
   * After Backward from the root of a hinge graph whose sample `i` holds
   * -y in its product of Neg and the margin y*(-1)*p + 1 in its sum node,
   * the prediction at the end of the sample's path holds -y/n when
   * 1 - y*p > 0 and 0 otherwise.
   */
  lemma HingePathGradient(m: Libm, h: Arena, base: nat, n: nat, r: Arena, i: nat, pred: nat, y: real, p: real)
    requires HingeAccPath(h, base, n) && i < n && HingeSamplePath(h, base, i, pred)
    requires Backpropagated(m, h, |h| - 1, r)
    requires h[base + 7 * i + 2].data == y * -1.0 && h[base + 7 * i + 5].data == y * -1.0 * p + 1.0
    ensures r[pred].grad == if 1.0 - y * p > 0.0 then -y / (n as real) else 0.0
  {
    HingeInputGrad(m, h, base, n, r, i, pred, y * -1.0 * p + 1.0, y * -1.0);
    HingeGradArith(n, y, p, r[pred].grad);
  }

  /** A hinge-shaped arena has the paths from its root to sample `i`'s unshared prediction. */
  lemma HingeShapedPaths(h: Arena, base: nat, yt: seq<nat>, yp: seq<nat>, i: nat)
    requires HingeShaped(h, base, yt, yp) && i < |yp| && Unshared(yt, yp, |yp|, i) && h[yp[i]].grad == 0.0
    ensures HingeAccPath(h, base, |yp|) && HingeSamplePath(h, base, i, yp[i])
  {
    HingeAccPathOf(h, base, yt, yp);
    HingeSamplePathOf(h, base, yt, yp, i);
  }

  /** The arena HingeLoss leaves behind has the paths from its root to sample `i`'s prediction. */
  lemma HingePaths(g: Arena, yt: seq<nat>, yp: seq<nat>, i: nat)
    requires AllIn(g, yt) && AllIn(g, yp) && 0 < |yp| <= |yt| && i < |yp|
    requires WellFormed(g + HingeNodes(g, yt, yp)) && LeafInputs(g, yt, yp, |yp|) && Unshared(yt, yp, |yp|, i)
    requires g[yp[i]].grad == 0.0
    ensures HingeAccPath(g + HingeNodes(g, yt, yp), |g|, |yp|)
    ensures HingeSamplePath(g + HingeNodes(g, yt, yp), |g|, i, yp[i])
  {
    var h := g + HingeNodes(g, yt, yp);
    HingeGraphShaped(g, yt, yp);
    assert h[yp[i]] == g[yp[i]];
    HingeShapedPaths(h, |g|, yt, yp, i);
  }

  /**
   * Over the arena HingeLoss leaves behind, any arena that satisfies the
   * adjoint equations from its root gives an unshared prediction whose
   * `Grad` was 0 the gated slope -ytrue[i]/n.
   */
  lemma HingeBackpropagatedGradient(m: Libm, g: Arena, yt: seq<nat>, yp: seq<nat>, r: Arena, i: nat)
    requires AllIn(g, yt) && AllIn(g, yp) && 0 < |yp| <= |yt| && i < |yp|
    requires WellFormed(g + HingeNodes(g, yt, yp)) && LeafInputs(g, yt, yp, |yp|) && Unshared(yt, yp, |yp|, i)
    requires g[yp[i]].grad == 0.0
    requires Backpropagated(m, g + HingeNodes(g, yt, yp), |g| + 7 * |yp| + 2, r)
    ensures var y, p := g[yt[i]].data, g[yp[i]].data;
      r[yp[i]].grad == if 1.0 - y * p > 0.0 then -y / (|yp| as real) else 0.0
  {
    var h := g + HingeNodes(g, yt, yp);
    HingePaths(g, yt, yp, i);
    HingeSampleData(g, yt, yp, i);
    HingePathGradient(m, h, |g|, |yp|, r, i, yp[i], g[yt[i]].data, g[yp[i]].data);
  }

  /**
   * After HingeLoss over distinct leaf inputs and Backward from its result,
   * an unshared prediction whose `Grad` was 0 holds -ytrue[i]/n when the
   * margin 1 - ytrue[i]*ypred[i] is positive and 0 otherwise: the ReLU gate
   * lets gradient through only when the sample's hinge term is active.
   */
  lemma HingeGradient(m: Libm, g: Arena, yt: seq<nat>, yp: seq<nat>, topo: seq<nat>, i: nat)
    requires AllIn(g, yt) && AllIn(g, yp) && 0 < |yp| <= |yt| && i < |yp|
    requires WellFormed(g + HingeNodes(g, yt, yp)) && LeafInputs(g, yt, yp, |yp|) && Unshared(yt, yp, |yp|, i)
    requires g[yp[i]].grad == 0.0
    requires IsTopoOrder(g + HingeNodes(g, yt, yp), |g| + 7 * |yp| + 2, topo)
    ensures var h := g + HingeNodes(g, yt, yp); var y, p := g[yt[i]].data, g[yp[i]].data;
      Rules(m, Seed(h, |h| - 1), topo)[yp[i]].grad == if 1.0 - y * p > 0.0 then -y / (|yp| as real) else 0.0
  {
    var h := g + HingeNodes(g, yt, yp);
    BackwardBackpropagated(m, h, |h| - 1, topo);
    HingeBackpropagatedGradient(m, g, yt, yp, Rules(m, Seed(h, |h| - 1), topo), i);
  }
}
