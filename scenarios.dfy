/**
 * Small expressions built and differentiated through the `Graph` methods,
 * with the values and gradients Backward leaves in them.
 */
module Scenarios {
  import opened Engine

  /** A list without repetitions has as many members as it has entries. */
  lemma {:induction false} DistinctCard(s: seq<nat>)
    requires Distinct(s)
    ensures |Elems(s)| == |s|
    decreases |s|
  {
    if s != [] {
      var last := s[|s| - 1];
      var init := s[..|s| - 1];
      assert s == init + [last];
      assert Elems(s) == Elems(init) + {last};
      assert last !in Elems(init);
      DistinctCard(init);
    }
  }

  /** The topological list of a node whose operands are all node 0, a leaf. */
  lemma TopoOfTwo(g: Arena, topo: seq<nat>)
    requires WellFormed(g) && |g| == 2 && g[0].op.Leaf? && !g[1].op.Leaf? && g[1].op.a == 0
    requires (g[1].op.Add? || g[1].op.Mul?) ==> g[1].op.b == 0
    requires IsTopoOrder(g, 1, topo)
    ensures topo == [0, 1]
  {
    assert Reach(g, 0) == {0};
    assert Elems(topo) == {0, 1};
    DistinctCard(topo);
    assert topo[0] in Elems(topo);
  }

  /** The chain 0 <- 1 <- 2 reaches all three nodes from 2, so its topological list has three entries. */
  lemma ChainElems(g: Arena, topo: seq<nat>)
    requires WellFormed(g) && |g| == 3 && g[0].op.Leaf?
    requires Children(g[1].op) == [0] && Children(g[2].op) == [1]
    requires IsTopoOrder(g, 2, topo)
    ensures Elems(topo) == {0, 1, 2} && |topo| == 3
  {
    assert Reach(g, 0) == {0};
    assert Reach(g, 1) == {0, 1};
    var two: set<nat>, three: set<nat> := {0, 1}, {0, 1, 2};
    assert |three| == |two| + 1 == 3;
    DistinctCard(topo);
  }

  /** The topological list of the chain 0 <- 1 <- 2 of single-operand nodes over a leaf. */
  lemma TopoOfChain(g: Arena, topo: seq<nat>)
    requires WellFormed(g) && |g| == 3 && g[0].op.Leaf?
    requires Children(g[1].op) == [0] && Children(g[2].op) == [1]
    requires IsTopoOrder(g, 2, topo)
    ensures topo == [0, 1, 2]
  {
    ChainElems(g, topo);
    assert 1 in Children(g[topo[2]].op);
    assert 1 in topo[..2];
    var k :| 0 <= k < 2 && topo[k] == 1;
    assert 0 in Children(g[topo[k]].op);
    assert 0 in topo[..k];
    assert k == 1 && topo[0] == 0;
  }

  /** Running the rules of [0, 1] over a two-node arena whose node 0 is a leaf. */
  lemma RulesOfTwo(m: Libm, g: Arena)
    requires WellFormed(g) && |g| == 2 && g[0].op.Leaf?
    ensures var h := Rules(m, g, [0, 1]);
      h[0].grad == g[0].grad + Delta(m, g, 1, 0) && h[1].grad == g[1].grad
  {
    assert [0, 1][1..] == [1];
    assert [1][1..] == [];
    var a := Apply(m, g, 1);
    assert Rules(m, g, [1]) == a;
    assert Rules(m, g, [0, 1]) == Apply(m, a, 0);
    assert Delta(m, g, 1, 1) == 0.0;
  }

  /** Running the rules of [0, 1, 2] over the chain 0 <- 1 <- 2 whose node 0 is a leaf. */
  lemma RulesOfChain(m: Libm, g: Arena)
    requires WellFormed(g) && |g| == 3 && g[0].op.Leaf?
    requires Children(g[1].op) == [0] && Children(g[2].op) == [1]
    ensures var a := Apply(m, g, 2); var h := Rules(m, g, [0, 1, 2]);
      h[0].grad == g[0].grad + Delta(m, a, 1, 0) && a[1].grad == g[1].grad + Delta(m, g, 2, 1)
  {
    assert [0, 1, 2][1..] == [1, 2];
    assert [1, 2][1..] == [2];
    assert [2][1..] == [];
    var a := Apply(m, g, 2);
    assert Rules(m, g, [2]) == a;
    var b := Apply(m, a, 1);
    assert Rules(m, g, [1, 2]) == b;
    assert Rules(m, g, [0, 1, 2]) == Apply(m, b, 0);
    assert Delta(m, a, 2, 0) == 0.0;
  }

  /** x*x at x = 2: the value is 4 and x collects both halves of the product rule, 2*2. */
  method Square(m: Libm) returns (y: real, dx: real)
    ensures y == 4.0 && dx == 4.0
  {
    var g := new Graph(m);
    var x := g.NewLeafValue(2.0);
    var p := g.Mul(x, Node(x));
    ghost var g0 := g.nodes;
    ghost var topo := g.Backward(p);
    TopoOfTwo(g0, topo);
    RulesOfTwo(m, Seed(g0, p));
    assert Delta(m, Seed(g0, p), p, x) == 4.0;
    y, dx := g.nodes[p].data, g.nodes[x].grad;
  }

  /** ReLU at x = -3: the value is 0 and no gradient flows back to x. */
  method ReluNegative(m: Libm) returns (y: real, dx: real)
    ensures y == 0.0 && dx == 0.0
  {
    var g := new Graph(m);
    var x := g.NewLeafValue(-3.0);
    var r := g.ReLU(x);
    ghost var g0 := g.nodes;
    ghost var topo := g.Backward(r);
    TopoOfTwo(g0, topo);
    RulesOfTwo(m, Seed(g0, r));
    y, dx := g.nodes[r].data, g.nodes[x].grad;
  }

  /** Sigmoid at x = 0 (where e^0 = 1): the value is 1/2 and the slope 1/4. */
  method SigmoidAtZero(m: Libm) returns (y: real, dx: real)
    requires m.exp(0.0) == 1.0
    ensures y == 0.5 && dx == 0.25
  {
    var g := new Graph(m);
    var x := g.NewLeafValue(0.0);
    var s := g.Sigmoid(x);
    ghost var g0 := g.nodes;
    ghost var topo := g.Backward(s);
    TopoOfTwo(g0, topo);
    RulesOfTwo(m, Seed(g0, s));
    assert -0.0 == 0.0;
    y, dx := g.nodes[s].data, g.nodes[x].grad;
  }

  /**
   * Log at x = 0, where the library logarithm lies below -100: the value is
   * clamped to -100, and the rule divides by 0 + 1e-4.
   */
  method LogAtZero(m: Libm) returns (y: real, dx: real)
    requires m.log(0.0) < -100.0
    ensures y == -100.0 && dx == 10000.0
  {
    var g := new Graph(m);
    var x := g.NewLeafValue(0.0);
    var l := g.Log(x);
    ghost var g0 := g.nodes;
    ghost var topo := g.Backward(l);
    TopoOfTwo(g0, topo);
    RulesOfTwo(m, Seed(g0, l));
    y, dx := g.nodes[l].data, g.nodes[x].grad;
  }

  /**
   * Two calls of Backward on r = ReLU(ReLU(x)) at x = 1.  The first leaves
   * x.Grad at 1; the second reseeds only the root, and the interior node
   * still holds its gradient from the first call, so x.Grad becomes 3, not 2.
   */
  method BackwardTwice(m: Libm) returns (first: real, second: real)
    ensures first == 1.0 && second == 3.0
  {
    var g := new Graph(m);
    var x := g.NewLeafValue(1.0);
    var b := g.ReLU(x);
    var r := g.ReLU(b);
    ghost var g0 := g.nodes;
    ghost var topo := g.Backward(r);
    TopoOfChain(g0, topo);
    RulesOfChain(m, Seed(g0, r));
    first := g.nodes[x].grad;
    ghost var g1 := g.nodes;
    assert g1[b].grad == 1.0;
    topo := g.Backward(r);
    TopoOrderSameShape(g0, g1, r, topo);
    TopoOfChain(g1, topo);
    RulesOfChain(m, Seed(g1, r));
    second := g.nodes[x].grad;
  }
}
