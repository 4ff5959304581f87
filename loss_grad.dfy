/**
 * The gradients Backward leaves in the predictions after a loss is built
 * over them (micrograd/loss.go together with the rules of
 * micrograd/engine.go).
 *
 * Each loss graph is described by the operation at every index it
 * allocates; from that shape, every node on the path from the root to a
 * prediction has a single parent among the reachable nodes, so the adjoint
 * equation gives its gradient one step at a time.
 */
module LossGradients {
  import opened Engine
  import opened Adjoint
  import opened Loss

  /** The inputs the loss reads are leaves of the graph. */
  predicate LeafInputs(g: Arena, yt: seq<nat>, yp: seq<nat>, n: nat)
    requires AllIn(g, yt) && AllIn(g, yp) && n <= |yt| && n <= |yp|
  {
    forall j :: 0 <= j < n ==> g[yt[j]].op.Leaf? && g[yp[j]].op.Leaf?
  }

  /** ypred[i] is no other input of the loss: not a target, and not another prediction. */
  predicate Unshared(yt: seq<nat>, yp: seq<nat>, n: nat, i: nat)
    requires n <= |yt| && n <= |yp| && i < n
  {
    forall j :: 0 <= j < n ==> yt[j] != yp[i] && (j != i ==> yp[j] != yp[i])
  }

  /** The inputs the loss reads were allocated before it. */
  predicate InputsBelow(yt: seq<nat>, yp: seq<nat>, n: nat, base: nat)
    requires n <= |yt| && n <= |yp|
  {
    forall j :: 0 <= j < n ==> yt[j] < base && yp[j] < base
  }

  /** Position `t` past the running-sum leaf lies in block (t-1)/size at offset (t-1)%size. */
  lemma BlockIndex(t: nat, size: nat)
    requires size > 0
    ensures 0 < t ==> t - 1 == size * ((t - 1) / size) + (t - 1) % size && 0 <= (t - 1) % size < size
  {
  }

  // ---------------------------------------------------------------------------
  // The shape of the MSE graph
  // ---------------------------------------------------------------------------

  /**
   * The operation MSE puts at index `x` of a graph it starts building at
   * `base`: the running-sum leaf, five nodes per sample (the -1 leaf, the
   * product of Neg, the difference, the square, the running sum), the 1/n
   * leaf and the root product.
   */
  function MSEOp(yt: seq<nat>, yp: seq<nat>, base: nat, n: nat, x: nat): Op
    requires n <= |yt| && n <= |yp| && base <= x < base + 5 * n + 3
  {
    var t := x - base;
    if t == 0 || t == 5 * n + 1 then Leaf
    else if t == 5 * n + 2 then Op.Mul(base + 5 * n, base + 5 * n + 1)
    else
      var j, r := (t - 1) / 5, (t - 1) % 5;
      if r == 0 then Leaf
      else if r == 1 then Op.Mul(yp[j], x - 1)
      else if r == 2 then Op.Add(yt[j], x - 1)
      else if r == 3 then Op.Pow(x - 1, 2.0)
      else Op.Add(base + 5 * j, x - 1)
  }

  /** The operation of entry `r` of MSE sample `i`, the sample's first node sitting at `base + 1 + 5*i`. */
  function MSEBlockOp(yt: seq<nat>, yp: seq<nat>, base: nat, i: nat, r: nat): Op
    requires i < |yt| && i < |yp|
  {
    var k := base + 1 + 5 * i;
    if r == 1 then Op.Mul(yp[i], k)
    else if r == 2 then Op.Add(yt[i], k + 1)
    else if r == 3 then Op.Pow(k + 2, 2.0)
    else if r == 4 then Op.Add(base + 5 * i, k + 3)
    else Leaf
  }

  /** `MSEOp` inside sample `i`. */
  lemma MSEOpInBlock(yt: seq<nat>, yp: seq<nat>, base: nat, n: nat, i: nat, r: nat)
    requires n <= |yt| && n <= |yp| && i < n && r < 5
    ensures MSEOp(yt, yp, base, n, base + 1 + 5 * i + r) == MSEBlockOp(yt, yp, base, i, r)
  {
    var t := 1 + 5 * i + r;
    assert (t - 1) / 5 == i && (t - 1) % 5 == r;
  }

  /** Entry `t` of the MSE prefix: the running-sum leaf, or entry (t-1)%5 of sample (t-1)/5. */
  lemma {:induction false} MSEPrefixAt(m: Libm, g: Arena, yt: seq<nat>, yp: seq<nat>, base: nat, k: nat, t: nat)
    requires AllIn(g, yt) && AllIn(g, yp) && k <= |yt| && k <= |yp| && t < 1 + 5 * k
    ensures 0 < t ==> 0 <= (t - 1) / 5 < k
    ensures MSEPrefix(m, g, yt, yp, base, k)[t] ==
      if t == 0 then Value(0.0, 0.0, Leaf) else MSEBlock(m, g, yt, yp, base, (t - 1) / 5)[(t - 1) % 5]
    decreases k
  {
    if k > 0 {
      if t < 1 + 5 * (k - 1) {
        MSEPrefixAt(m, g, yt, yp, base, k - 1, t);
      } else {
        assert (t - 1) / 5 == k - 1;
      }
    }
  }

  /** Node `base + 1 + 5*i + r` of the MSE graph is entry `r` of sample `i`. */
  lemma MSESampleAt(m: Libm, g: Arena, yt: seq<nat>, yp: seq<nat>, i: nat, r: nat)
    requires AllIn(g, yt) && AllIn(g, yp) && 0 < |yt| <= |yp| && i < |yt| && r < 5
    ensures (g + MSENodes(m, g, yt, yp))[|g| + 1 + 5 * i + r] == MSEBlock(m, g, yt, yp, |g|, i)[r]
  {
    var t := 1 + 5 * i + r;
    assert (t - 1) / 5 == i && (t - 1) % 5 == r;
    MSEPrefixAt(m, g, yt, yp, |g|, |yt|, t);
  }

  /** Every node MSE allocates has the operation `MSEOp` describes and a zero `Grad`. */
  lemma MSEShape(m: Libm, g: Arena, yt: seq<nat>, yp: seq<nat>, x: nat)
    requires AllIn(g, yt) && AllIn(g, yp) && 0 < |yt| <= |yp| && |g| <= x < |g| + 5 * |yt| + 3
    ensures var h := g + MSENodes(m, g, yt, yp);
      h[x].op == MSEOp(yt, yp, |g|, |yt|, x) && h[x].grad == 0.0
  {
    var n, t := |yt|, x - |g|;
    if t < 1 + 5 * n {
      MSEPrefixAt(m, g, yt, yp, |g|, n, t);
    }
  }

  /** Outside the running-sum chain, an MSE node's operands are that sample's inputs or the node just before it. */
  lemma MSEOpChildren(yt: seq<nat>, yp: seq<nat>, base: nat, n: nat, x: nat, c: nat)
    requires n <= |yt| && n <= |yp| && base <= x < base + 5 * n + 3 && c in Children(MSEOp(yt, yp, base, n, x))
    ensures base <= c || (0 <= (x - base - 1) / 5 < n && (c == yt[(x - base - 1) / 5] || c == yp[(x - base - 1) / 5]))
  {
  }

  /** Only the next running sum, or the root for the last one, has the running sum after `j` samples as an operand. */
  lemma MSEAccParent(yt: seq<nat>, yp: seq<nat>, base: nat, n: nat, j: nat, x: nat)
    requires n <= |yt| && n <= |yp| && j <= n && base <= x < base + 5 * n + 3
    requires InputsBelow(yt, yp, n, base)
    ensures base + 5 * j in Children(MSEOp(yt, yp, base, n, x)) ==>
      x == if j == n then base + 5 * n + 2 else base + 5 * j + 5
  {
    BlockIndex(x - base, 5);
  }

  /** The product of Neg, the difference and the square each have the node after them as their only parent. */
  lemma MSEInnerParent(yt: seq<nat>, yp: seq<nat>, base: nat, n: nat, j: nat, r: nat, x: nat)
    requires n <= |yt| && n <= |yp| && j < n && 1 <= r <= 3 && base <= x < base + 5 * n + 3
    requires InputsBelow(yt, yp, n, base)
    ensures base + 1 + 5 * j + r in Children(MSEOp(yt, yp, base, n, x)) ==> x == base + 2 + 5 * j + r
  {
    BlockIndex(x - base, 5);
  }

  /** An unshared prediction's only parent in the MSE graph is the product of its Neg. */
  lemma MSEInputParent(yt: seq<nat>, yp: seq<nat>, base: nat, n: nat, i: nat, x: nat)
    requires n <= |yt| && n <= |yp| && i < n && Unshared(yt, yp, n, i) && yp[i] < base
    requires base <= x < base + 5 * n + 3
    ensures yp[i] in Children(MSEOp(yt, yp, base, n, x)) ==> x == base + 5 * i + 2
  {
    var t := x - base;
    if 0 < t < 5 * n + 1 && yp[i] in Children(MSEOp(yt, yp, base, n, x)) {
      var j := (t - 1) / 5;
      assert yp[j] == yp[i];
    }
  }

  // ---------------------------------------------------------------------------
  // Backward through the MSE graph
  // ---------------------------------------------------------------------------

  /**
   * `h` has the shape MSE gives the nodes from `base` on, over inputs that
   * are leaves allocated before `base`: the running-sum leaf, five nodes per
   * sample as `MSEBlockOp` describes, the 1/n leaf and the root product,
   * all with a zero `Grad`.
   */
  ghost predicate MSEShaped(h: Arena, base: nat, yt: seq<nat>, yp: seq<nat>)
  {
    && 0 < |yt| <= |yp| && |h| == base + 5 * |yt| + 3 && WellFormed(h)
    && InputsBelow(yt, yp, |yt|, base)
    && (forall j :: 0 <= j < |yt| ==> h[yt[j]].op.Leaf? && h[yp[j]].op.Leaf?)
    && h[base].op.Leaf? && h[base].grad == 0.0
    && (forall i, r :: 0 <= i < |yt| && 0 <= r < 5 ==>
          h[base + 1 + 5 * i + r].op == MSEBlockOp(yt, yp, base, i, r) && h[base + 1 + 5 * i + r].grad == 0.0)
    && h[base + 5 * |yt| + 1].op.Leaf? && h[base + 5 * |yt| + 1].grad == 0.0
    && h[base + 5 * |yt| + 1].data == 1.0 / (|yt| as real)
    && h[base + 5 * |yt| + 2].op == Op.Mul(base + 5 * |yt|, base + 5 * |yt| + 1) && h[base + 5 * |yt| + 2].grad == 0.0
  }

  /** Every node of an MSE-shaped arena from `base` on has the operation `MSEOp` describes and a zero `Grad`. */
  lemma MSEShapedAt(h: Arena, base: nat, yt: seq<nat>, yp: seq<nat>, x: nat)
    requires MSEShaped(h, base, yt, yp) && base <= x < |h|
    ensures h[x].op == MSEOp(yt, yp, base, |yt|, x) && h[x].grad == 0.0
  {
    var n, t := |yt|, x - base;
    if 0 < t < 5 * n + 1 {
      BlockIndex(t, 5);
      var i, r := (t - 1) / 5, (t - 1) % 5;
      MSEOpInBlock(yt, yp, base, n, i, r);
      assert h[base + 1 + 5 * i + r].op == MSEBlockOp(yt, yp, base, i, r);
    }
  }

  /** The arena MSE leaves behind has the MSE shape. */
  lemma MSEGraphShaped(m: Libm, g: Arena, yt: seq<nat>, yp: seq<nat>)
    requires AllIn(g, yt) && AllIn(g, yp) && 0 < |yt| <= |yp|
    requires WellFormed(g + MSENodes(m, g, yt, yp)) && LeafInputs(g, yt, yp, |yt|)
    ensures MSEShaped(g + MSENodes(m, g, yt, yp), |g|, yt, yp)
  {
    var h := g + MSENodes(m, g, yt, yp);
    forall x | |g| <= x < |h|
      ensures h[x].op == MSEOp(yt, yp, |g|, |yt|, x) && h[x].grad == 0.0
    {
      MSEShape(m, g, yt, yp, x);
    }
    forall i, r | 0 <= i < |yt| && 0 <= r < 5
      ensures h[|g| + 1 + 5 * i + r].op == MSEBlockOp(yt, yp, |g|, i, r) && h[|g| + 1 + 5 * i + r].grad == 0.0
    {
      MSEOpInBlock(yt, yp, |g|, |yt|, i, r);
    }
    forall j | 0 <= j < |yt|
      ensures h[yt[j]].op.Leaf? && h[yp[j]].op.Leaf?
    {
      assert h[yt[j]] == g[yt[j]] && h[yp[j]] == g[yp[j]];
    }
  }

  /**
   * What the root of an MSE-shaped arena reaches is either allocated by MSE
   * or an input leaf: the graph below the inputs is not visited.
   */
  lemma MSEReach(h: Arena, base: nat, yt: seq<nat>, yp: seq<nat>, x: nat)
    requires MSEShaped(h, base, yt, yp) && x in Reach(h, |h| - 1)
    ensures x < |h| && (x < base ==> h[x].op.Leaf?)
  {
    var n := |yt|;
    var s := set y: nat | y < |h| && (base <= y || h[y].op.Leaf?);
    forall y, c | y in s && y < |h| && c in Children(h[y].op)
      ensures c in s
    {
      BelowChildren(h[y].op, y, c);
      if base <= y {
        MSEShapedAt(h, base, yt, yp, y);
        MSEOpChildren(yt, yp, base, n, y, c);
      }
    }
    ClosedContainsReach(h, s, |h| - 1);
  }

  /** Below `base`, the root of an MSE-shaped arena reaches only leaves. */
  lemma MSELeavesBelow(h: Arena, base: nat, yt: seq<nat>, yp: seq<nat>)
    requires MSEShaped(h, base, yt, yp)
    ensures LeavesBelow(h, |h| - 1, base)
  {
    forall x | x in Reach(h, |h| - 1) && x < base
      ensures h[x].op.Leaf?
    {
      MSEReach(h, base, yt, yp, x);
    }
  }

  /** In an MSE-shaped arena, a node whose only possible parent from `base` on is `q` has no other parent from there. */
  lemma MSEOnlyParent(h: Arena, base: nat, yt: seq<nat>, yp: seq<nat>, c: nat, q: nat)
    requires MSEShaped(h, base, yt, yp)
    requires forall x :: base <= x < |h| ==> (c in Children(MSEOp(yt, yp, base, |yt|, x)) ==> x == q)
    ensures forall x :: base <= x < |h| && x != q ==> c !in Children(h[x].op)
  {
    forall x | base <= x < |h| && x != q
      ensures c !in Children(h[x].op)
    {
      MSEShapedAt(h, base, yt, yp, x);
    }
  }

  /** A node from `base` on whose only parent from `base` on is `q` has no other parent at all. */
  lemma OnlyParentAbove(h: Arena, base: nat, c: nat, q: nat)
    requires WellFormed(h) && base <= c && OnlyParent(h, base, c, q)
    ensures OnlyParent(h, 0, c, q)
  {
    forall x | 0 <= x < base
      ensures c !in Children(h[x].op)
    {
      if x < |h| && c in Children(h[x].op) {
        BelowChildren(h[x].op, x, c);
      }
    }
  }

  /**
   * The running sum after `j` samples has one parent, the next running sum
   * or the root for the last, and starts with a zero `Grad`.
   */
  lemma MSEAccOnlyParent(h: Arena, base: nat, yt: seq<nat>, yp: seq<nat>, j: nat, q: nat)
    requires MSEShaped(h, base, yt, yp) && j <= |yt|
    requires q == if j == |yt| then |h| - 1 else base + 5 * j + 5
    ensures OnlyParent(h, 0, base + 5 * j, q) && h[base + 5 * j].grad == 0.0
  {
    if j < |yt| {
      assert q == base + 1 + 5 * j + 4;
      assert h[q].op == MSEBlockOp(yt, yp, base, j, 4);
    } else {
      assert h[q].op == Op.Mul(base + 5 * j, base + 5 * j + 1);
    }
    if j > 0 {
      assert base + 5 * j == base + 1 + 5 * (j - 1) + 4;
      assert h[base + 5 * j].op == MSEBlockOp(yt, yp, base, j - 1, 4);
    }
    forall x | base <= x < |h|
      ensures base + 5 * j in Children(MSEOp(yt, yp, base, |yt|, x)) ==> x == q
    {
      MSEAccParent(yt, yp, base, |yt|, j, x);
    }
    MSEOnlyParent(h, base, yt, yp, base + 5 * j, q);
    OnlyParentAbove(h, base, base + 5 * j, q);
  }

  /**
   * The product of Neg, the difference and the square of sample `i` each
   * have one parent, the node after them, and start with a zero `Grad`.
   */
  lemma MSEInnerLink(h: Arena, base: nat, yt: seq<nat>, yp: seq<nat>, i: nat, k: nat)
    requires MSEShaped(h, base, yt, yp) && i < |yt| && 1 <= k <= 3
    ensures Link(h, 0, base + 5 * i + 1 + k, base + 5 * i + 2 + k)
    ensures h[base + 5 * i + 2 + k].op == MSEBlockOp(yt, yp, base, i, k + 1)
  {
    assert base + 5 * i + 2 + k == base + 1 + 5 * i + (k + 1);
    assert base + 5 * i + 1 + k == base + 1 + 5 * i + k;
    assert h[base + 1 + 5 * i + (k + 1)].op == MSEBlockOp(yt, yp, base, i, k + 1);
    assert h[base + 1 + 5 * i + k].op == MSEBlockOp(yt, yp, base, i, k);
    forall x | base <= x < |h|
      ensures base + 1 + 5 * i + k in Children(MSEOp(yt, yp, base, |yt|, x)) ==> x == base + 2 + 5 * i + k
    {
      MSEInnerParent(yt, yp, base, |yt|, i, k, x);
    }
    MSEOnlyParent(h, base, yt, yp, base + 1 + 5 * i + k, base + 2 + 5 * i + k);
    OnlyParentAbove(h, base, base + 1 + 5 * i + k, base + 2 + 5 * i + k);
  }

  /**
   * An unshared prediction has one parent from `base` on, the product of its
   * Neg, and nothing below `base` that the root reaches has operands.
   */
  lemma MSEInputLink(h: Arena, base: nat, yt: seq<nat>, yp: seq<nat>, i: nat)
    requires MSEShaped(h, base, yt, yp) && i < |yt| && Unshared(yt, yp, |yt|, i) && h[yp[i]].grad == 0.0
    ensures Link(h, base, yp[i], base + 5 * i + 2) && h[base + 5 * i + 2].op == Op.Mul(yp[i], base + 5 * i + 1)
    ensures LeavesBelow(h, |h| - 1, base)
  {
    assert base + 5 * i + 2 == base + 1 + 5 * i + 1;
    assert h[base + 1 + 5 * i + 1].op == MSEBlockOp(yt, yp, base, i, 1);
    forall x | base <= x < |h|
      ensures yp[i] in Children(MSEOp(yt, yp, base, |yt|, x)) ==> x == base + 5 * i + 2
    {
      MSEInputParent(yt, yp, base, |yt|, i, x);
    }
    MSEOnlyParent(h, base, yt, yp, yp[i], base + 5 * i + 2);
    MSELeavesBelow(h, base, yt, yp);
  }

  /**
   * The running sums and the blocks of an MSE-shaped arena as the links of
   * the path from its root: the root's left operand, then each running sum
   * feeding the next one.
   */
  lemma MSEAccPathOf(h: Arena, base: nat, yt: seq<nat>, yp: seq<nat>)
    requires MSEShaped(h, base, yt, yp)
    ensures MSEAccPath(h, base, |yt|)
  {
    MSEAccOnlyParent(h, base, yt, yp, |yt|, |h| - 1);
    forall j | 0 <= j < |yt|
      ensures MSEAccLink(h, base, j)
    {
      MSEAccOnlyParent(h, base, yt, yp, j, base + 5 * j + 5);
      assert base + 5 * j + 5 == base + 1 + 5 * j + 4;
      assert h[base + 5 * j + 5].op == MSEBlockOp(yt, yp, base, j, 4);
    }
  }

  /** The nodes of sample `i` of an MSE-shaped arena as the links of the path from its running sum to an unshared prediction. */
  lemma MSESamplePathOf(h: Arena, base: nat, yt: seq<nat>, yp: seq<nat>, i: nat)
    requires MSEShaped(h, base, yt, yp) && i < |yt| && Unshared(yt, yp, |yt|, i) && h[yp[i]].grad == 0.0
    ensures MSESamplePath(h, base, i, yt[i], yp[i])
  {
    MSEInnerLink(h, base, yt, yp, i, 1);
    MSEInnerLink(h, base, yt, yp, i, 2);
    MSEInnerLink(h, base, yt, yp, i, 3);
    MSEInputLink(h, base, yt, yp, i);
  }

  /** The running sum after `j` samples is a link to the next running sum. */
  ghost predicate MSEAccLink(h: Arena, base: nat, j: nat)
  {
    && base + 5 * j + 5 < |h|
    && Link(h, 0, base + 5 * j, base + 5 * j + 5)
    && h[base + 5 * j + 5].op == Op.Add(base + 5 * j, base + 5 * j + 4)
  }

  /**
   * The path from the root of an MSE graph of `n` samples built from `base`
   * down its running sums: the root multiplies the last running sum by the
   * 1/n leaf, and each running sum adds a square to the one before.
   */
  ghost predicate MSEAccPath(h: Arena, base: nat, n: nat)
  {
    && 0 < n && |h| == base + 5 * n + 3 && WellFormed(h)
    && Link(h, 0, base + 5 * n, |h| - 1)
    && h[|h| - 1].op == Op.Mul(base + 5 * n, base + 5 * n + 1)
    && h[base + 5 * n + 1].data == 1.0 / (n as real)
    && forall j :: 0 <= j < n ==> MSEAccLink(h, base, j)
  }

  /**
   * The path through sample `i` of an MSE graph built from `base`, from its
   * square down to the prediction `pred`, whose target is `target`: the
   * running sum adds the square, the square is a Pow of the difference, the
   * difference adds the target to the product of Neg, which multiplies the
   * prediction by the -1 leaf; below `base` the root reaches only leaves.
   */
  ghost predicate MSESamplePath(h: Arena, base: nat, i: nat, target: nat, pred: nat)
  {
    && WellFormed(h) && base + 5 * i + 5 < |h|
    && Link(h, 0, base + 5 * i + 4, base + 5 * i + 5) && h[base + 5 * i + 5].op == Op.Add(base + 5 * i, base + 5 * i + 4)
    && Link(h, 0, base + 5 * i + 3, base + 5 * i + 4) && h[base + 5 * i + 4].op == Op.Pow(base + 5 * i + 3, 2.0)
    && Link(h, 0, base + 5 * i + 2, base + 5 * i + 3) && h[base + 5 * i + 3].op == Op.Add(target, base + 5 * i + 2)
    && target != base + 5 * i + 2
    && Link(h, base, pred, base + 5 * i + 2) && h[base + 5 * i + 2].op == Op.Mul(pred, base + 5 * i + 1)
    && pred != base + 5 * i + 1
    && LeavesBelow(h, |h| - 1, base)
  }

  /** The running sums on the path from the root of an MSE graph are reachable from it. */
  lemma {:induction false} MSEAccReach(h: Arena, base: nat, n: nat, j: nat)
    requires MSEAccPath(h, base, n) && j <= n
    ensures base + 5 * j in Reach(h, |h| - 1)
    decreases n - j
  {
    if j == n {
      assert |h| - 1 in Reach(h, |h| - 1);
      ReachClosed(h, |h| - 1, |h| - 1, base + 5 * j);
    } else {
      MSEAccReach(h, base, n, j + 1);
      assert base + 5 * (j + 1) == base + 5 * j + 5;
      assert MSEAccLink(h, base, j);
      ReachClosed(h, |h| - 1, base + 5 * j + 5, base + 5 * j);
    }
  }

  /** The square, the difference and the product of Neg of sample `i` are reachable from the root of an MSE graph. */
  lemma MSESampleReach(h: Arena, base: nat, n: nat, i: nat, target: nat, pred: nat)
    requires MSEAccPath(h, base, n) && i < n && MSESamplePath(h, base, i, target, pred)
    ensures base + 5 * i + 5 in Reach(h, |h| - 1) && base + 5 * i + 4 in Reach(h, |h| - 1)
    ensures base + 5 * i + 3 in Reach(h, |h| - 1) && base + 5 * i + 2 in Reach(h, |h| - 1)
  {
    MSEAccReach(h, base, n, i + 1);
    assert base + 5 * (i + 1) == base + 5 * i + 5;
    ReachClosed(h, |h| - 1, base + 5 * i + 5, base + 5 * i + 4);
    ReachClosed(h, |h| - 1, base + 5 * i + 4, base + 5 * i + 3);
    ReachClosed(h, |h| - 1, base + 5 * i + 3, base + 5 * i + 2);
  }

  /**
   * After Backward from the root of an MSE graph, the running sum after `j`
   * samples holds the gradient 1/n: the root multiplies its gradient 1 by
   * 1/n, and each running sum passes its gradient on unchanged.
   */
  lemma {:induction false} MSEAccGrad(m: Libm, h: Arena, base: nat, n: nat, r: Arena, j: nat)
    requires MSEAccPath(h, base, n) && Backpropagated(m, h, |h| - 1, r) && j <= n
    ensures r[base + 5 * j].grad == 1.0 / (n as real)
    decreases n - j
  {
    if j == n {
      assert |h| - 1 in Reach(h, |h| - 1);
      MulGrad(m, h, |h| - 1, r, 0, base + 5 * j, |h| - 1, base + 5 * j + 1);
    } else {
      MSEAccReach(h, base, n, j + 1);
      assert base + 5 * (j + 1) == base + 5 * j + 5;
      assert MSEAccLink(h, base, j);
      AddGrad(m, h, |h| - 1, r, 0, base + 5 * j, base + 5 * j + 5, base + 5 * j + 4);
      MSEAccGrad(m, h, base, n, r, j + 1);
    }
  }

  /** The Pow rule's factor for the exponent 2: 2 x^(2-1) = 2 x. */
  lemma SquareSlope(m: Libm, x: real)
    ensures 2.0 * Power(m, x, 2.0 - 1.0) == 2.0 * x
  {
    assert (1.0).Floor == 1;
    assert IntPow(x, 1) == x;
  }

  /** After Backward from the root of an MSE graph, the square of sample `i` holds 1/n. */
  lemma MSESquareGrad(m: Libm, h: Arena, base: nat, n: nat, r: Arena, i: nat, target: nat, pred: nat)
    requires MSEAccPath(h, base, n) && i < n && MSESamplePath(h, base, i, target, pred)
    requires Backpropagated(m, h, |h| - 1, r)
    ensures r[base + 5 * i + 4].grad == 1.0 / (n as real)
  {
    MSESampleReach(h, base, n, i, target, pred);
    assert base + 5 * (i + 1) == base + 5 * i + 5;
    AddGrad(m, h, |h| - 1, r, 0, base + 5 * i + 4, base + 5 * i + 5, base + 5 * i);
    MSEAccGrad(m, h, base, n, r, i + 1);
  }

  /**
   * After Backward from the root of an MSE graph whose sample `i` holds the
   * difference `d`, that difference node holds 2 d / n: the square's rule
   * applied to the gradient 1/n of the square.
   */
  lemma MSEDiffGrad(m: Libm, h: Arena, base: nat, n: nat, r: Arena, i: nat, target: nat, pred: nat, d: real)
    requires MSEAccPath(h, base, n) && i < n && MSESamplePath(h, base, i, target, pred)
    requires Backpropagated(m, h, |h| - 1, r) && h[base + 5 * i + 3].data == d
    ensures r[base + 5 * i + 3].grad == 1.0 / (n as real) * (2.0 * d)
  {
    SquareSlope(m, d);
    MSESampleReach(h, base, n, i, target, pred);
    PowGrad(m, h, |h| - 1, r, 0, base + 5 * i + 3, base + 5 * i + 4, 2.0);
    MSESquareGrad(m, h, base, n, r, i, target, pred);
  }

  /** After Backward from the root of an MSE graph whose sample `i` holds the difference `d`, the product of Neg holds 2 d / n. */
  lemma MSENegGrad(m: Libm, h: Arena, base: nat, n: nat, r: Arena, i: nat, target: nat, pred: nat, d: real)
    requires MSEAccPath(h, base, n) && i < n && MSESamplePath(h, base, i, target, pred)
    requires Backpropagated(m, h, |h| - 1, r) && h[base + 5 * i + 3].data == d
    ensures r[base + 5 * i + 2].grad == 1.0 / (n as real) * (2.0 * d)
  {
    MSESampleReach(h, base, n, i, target, pred);
    AddGrad(m, h, |h| - 1, r, 0, base + 5 * i + 2, base + 5 * i + 3, target);
    MSEDiffGrad(m, h, base, n, r, i, target, pred, d);
  }

  /** After Backward from the root of an MSE graph whose sample `i` holds the difference `d`, its prediction holds 2 d / n times -1. */
  lemma MSEInputGrad(m: Libm, h: Arena, base: nat, n: nat, r: Arena, i: nat, target: nat, pred: nat, d: real)
    requires MSEAccPath(h, base, n) && i < n && MSESamplePath(h, base, i, target, pred)
    requires Backpropagated(m, h, |h| - 1, r)
    requires h[base + 5 * i + 1].data == -1.0 && h[base + 5 * i + 3].data == d
    ensures r[pred].grad == 0.0 + 1.0 / (n as real) * (2.0 * d) * -1.0
  {
    MSESampleReach(h, base, n, i, target, pred);
    MulGrad(m, h, |h| - 1, r, base, pred, base + 5 * i + 2, base + 5 * i + 1);
    MSENegGrad(m, h, base, n, r, i, target, pred, d);
  }

  /** The slope 2 d / n times -1, for d = y + p*(-1), is -2 (y - p) / n. */
  lemma MSEGradArith(n: nat, y: real, p: real, pred: real)
    requires n > 0 && pred == 0.0 + 1.0 / (n as real) * (2.0 * (y + p * -1.0)) * -1.0
    ensures pred == -2.0 * (y - p) / (n as real)
  {
  }

  /**
   * After Backward from the root of an MSE graph whose sample `i` holds the
   * -1 leaf and the difference `y + p*(-1)`, the prediction at the end of
   * the sample's path holds -2 (y - p) / n.
   */
  lemma MSEPathGradient(m: Libm, h: Arena, base: nat, n: nat, r: Arena, i: nat, target: nat, pred: nat, y: real, p: real)
    requires MSEAccPath(h, base, n) && i < n && MSESamplePath(h, base, i, target, pred)
    requires Backpropagated(m, h, |h| - 1, r)
    requires h[base + 5 * i + 1].data == -1.0 && h[base + 5 * i + 3].data == y + p * -1.0
    ensures r[pred].grad == -2.0 * (y - p) / (n as real)
  {
    MSEInputGrad(m, h, base, n, r, i, target, pred, y + p * -1.0);
    MSEGradArith(n, y, p, r[pred].grad);
  }

  /** An MSE-shaped arena has the paths from its root to sample `i`'s unshared prediction. */
  lemma MSEShapedPaths(h: Arena, base: nat, yt: seq<nat>, yp: seq<nat>, i: nat)
    requires MSEShaped(h, base, yt, yp) && i < |yt| && Unshared(yt, yp, |yt|, i) && h[yp[i]].grad == 0.0
    ensures MSEAccPath(h, base, |yt|) && MSESamplePath(h, base, i, yt[i], yp[i])
  {
    MSEAccPathOf(h, base, yt, yp);
    MSESamplePathOf(h, base, yt, yp, i);
  }

  /** The arena MSE leaves behind has the paths from its root to sample `i`'s prediction. */
  lemma MSEPaths(m: Libm, g: Arena, yt: seq<nat>, yp: seq<nat>, i: nat)
    requires AllIn(g, yt) && AllIn(g, yp) && 0 < |yt| <= |yp| && i < |yt|
    requires WellFormed(g + MSENodes(m, g, yt, yp)) && LeafInputs(g, yt, yp, |yt|) && Unshared(yt, yp, |yt|, i)
    requires g[yp[i]].grad == 0.0
    ensures MSEAccPath(g + MSENodes(m, g, yt, yp), |g|, |yt|)
    ensures MSESamplePath(g + MSENodes(m, g, yt, yp), |g|, i, yt[i], yp[i])
  {
    var h := g + MSENodes(m, g, yt, yp);
    MSEGraphShaped(m, g, yt, yp);
    assert h[yp[i]] == g[yp[i]];
    MSEShapedPaths(h, |g|, yt, yp, i);
  }

  /** Sample `i` of the arena MSE leaves behind holds the -1 leaf and the difference ytrue[i] + ypred[i]*(-1). */
  lemma MSESampleData(m: Libm, g: Arena, yt: seq<nat>, yp: seq<nat>, i: nat)
    requires AllIn(g, yt) && AllIn(g, yp) && 0 < |yt| <= |yp| && i < |yt|
    ensures var h := g + MSENodes(m, g, yt, yp);
      h[|g| + 5 * i + 1].data == -1.0 && h[|g| + 5 * i + 3].data == g[yt[i]].data + g[yp[i]].data * -1.0
  {
    MSESampleAt(m, g, yt, yp, i, 0);
    MSESampleAt(m, g, yt, yp, i, 2);
    assert |g| + 5 * i + 1 == |g| + 1 + 5 * i + 0;
    assert |g| + 5 * i + 3 == |g| + 1 + 5 * i + 2;
  }

  /**
   * Over the arena MSE leaves behind, any arena that satisfies the adjoint
   * equations from its root gives an unshared prediction whose `Grad` was 0
   * the slope -2 (ytrue[i] - ypred[i]) / n.
   */
  lemma MSEBackpropagatedGradient(m: Libm, g: Arena, yt: seq<nat>, yp: seq<nat>, r: Arena, i: nat)
    requires AllIn(g, yt) && AllIn(g, yp) && 0 < |yt| <= |yp| && i < |yt|
    requires WellFormed(g + MSENodes(m, g, yt, yp)) && LeafInputs(g, yt, yp, |yt|) && Unshared(yt, yp, |yt|, i)
    requires g[yp[i]].grad == 0.0
    requires Backpropagated(m, g + MSENodes(m, g, yt, yp), |g| + 5 * |yt| + 2, r)
    ensures r[yp[i]].grad == -2.0 * (g[yt[i]].data - g[yp[i]].data) / (|yt| as real)
  {
    var h := g + MSENodes(m, g, yt, yp);
    MSEPaths(m, g, yt, yp, i);
    MSESampleData(m, g, yt, yp, i);
    MSEPathGradient(m, h, |g|, |yt|, r, i, yt[i], yp[i], g[yt[i]].data, g[yp[i]].data);
  }

  /**
   * After MSE over distinct leaf inputs and Backward from its result, an
   * unshared prediction whose `Grad` was 0 holds -2 (ytrue[i] - ypred[i]) / n:
   * the derivative of the mean squared error with respect to ypred[i].
   */
  lemma MSEGradient(m: Libm, g: Arena, yt: seq<nat>, yp: seq<nat>, topo: seq<nat>, i: nat)
    requires AllIn(g, yt) && AllIn(g, yp) && 0 < |yt| <= |yp| && i < |yt|
    requires WellFormed(g + MSENodes(m, g, yt, yp)) && LeafInputs(g, yt, yp, |yt|) && Unshared(yt, yp, |yt|, i)
    requires g[yp[i]].grad == 0.0
    requires IsTopoOrder(g + MSENodes(m, g, yt, yp), |g| + 5 * |yt| + 2, topo)
    ensures var h := g + MSENodes(m, g, yt, yp);
      Rules(m, Seed(h, |h| - 1), topo)[yp[i]].grad == -2.0 * (g[yt[i]].data - g[yp[i]].data) / (|yt| as real)
  {
    var h := g + MSENodes(m, g, yt, yp);
    BackwardBackpropagated(m, h, |h| - 1, topo);
    MSEBackpropagatedGradient(m, g, yt, yp, Rules(m, Seed(h, |h| - 1), topo), i);
  }
}
