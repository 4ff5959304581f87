/**
 * What Backward computes (micrograd/engine.go, `Backward`).
 *
 * The rules run in reverse topological order, so every node's rule runs
 * after all the rules that add to that node's own `Grad`.  The gradient a
 * node ends with is therefore its starting gradient plus, for every listed
 * node, the amount that node's rule adds to it, computed from that node's
 * FINAL gradient: the adjoint equation of reverse-mode differentiation.
 */
module Adjoint {
  import opened Engine

  /**
   * The total the rules of the nodes in `s` add to node `n`, each rule
   * evaluated in state `g`.
   */
  function SumDelta(m: Libm, g: Arena, s: seq<nat>, n: nat): real
    requires WellFormed(g) && AllIn(g, s)
    decreases |s|
  {
    if s == [] then 0.0 else Delta(m, g, s[0], n) + SumDelta(m, g, s[1..], n)
  }

  /**
   * No rule of `s` adds to a node listed after it: running the rules from
   * the back, each node's `Grad` is final by the time its own rule runs.
   */
  predicate ParentsFirst(g: Arena, s: seq<nat>)
    requires AllIn(g, s)
  {
    forall t, u :: 0 <= t < u < |s| ==> s[u] !in Children(g[s[t]].op)
  }

  /** The sum only reads the `Grad` of the listed nodes. */
  lemma {:induction false} SumDeltaFrame(m: Libm, g: Arena, h: Arena, s: seq<nat>, n: nat)
    requires WellFormed(g) && SameShape(g, h) && AllIn(g, s)
    requires forall i :: 0 <= i < |s| ==> g[s[i]].grad == h[s[i]].grad
    ensures WellFormed(h) && SumDelta(m, g, s, n) == SumDelta(m, h, s, n)
    decreases |s|
  {
    SameShapeWellFormed(g, h);
    if s != [] {
      DeltaFrame(m, g, h, s[0], n);
      SumDeltaFrame(m, g, h, s[1..], n);
    }
  }

  /** No node is its own operand. */
  lemma NotOwnChild(g: Arena, p: nat)
    requires WellFormed(g) && p < |g|
    ensures p !in Children(g[p].op)
  {
    if p in Children(g[p].op) {
      BelowChildren(g[p].op, p, p);
    }
  }

  /**
   * The adjoint equation: after the rules of `s` run from the back, each
   * node's `Grad` is its starting `Grad` plus what the rules of `s` add to
   * it when evaluated in the final state.
   */
  lemma {:induction false} RulesAdjoint(m: Libm, g: Arena, s: seq<nat>, n: nat)
    requires WellFormed(g) && AllIn(g, s) && ParentsFirst(g, s) && n < |g|
    ensures var h := Rules(m, g, s); h[n].grad == g[n].grad + SumDelta(m, h, s, n)
    decreases |s|
  {
    if s != [] {
      var rest := Rules(m, g, s[1..]);
      var h := Rules(m, g, s);
      assert h == Apply(m, rest, s[0]);
      RulesAdjoint(m, g, s[1..], n);
      // The last rule, that of s[0], adds only to the operands of s[0]: not to
      // s[0] itself and not to any node listed after it.
      NotOwnChild(rest, s[0]);
      DeltaOnlyToChildren(m, rest, s[0], s[0]);
      DeltaFrame(m, rest, h, s[0], n);
      forall i | 0 <= i < |s[1..]|
        ensures rest[s[1..][i]].grad == h[s[1..][i]].grad
      {
        assert s[1..][i] == s[i + 1];
        assert s[i + 1] !in Children(g[s[0]].op);
        DeltaOnlyToChildren(m, rest, s[0], s[i + 1]);
      }
      SumDeltaFrame(m, rest, h, s[1..], n);
    }
  }

  /** A topological list of distinct nodes lists every node before the nodes it is an operand of. */
  lemma TopoParentsFirst(g: Arena, s: seq<nat>)
    requires Distinct(s) && ChildrenFirst(g, s)
    ensures AllIn(g, s) && ParentsFirst(g, s)
  {
    forall t, u | 0 <= t < u < |s|
      ensures s[u] !in Children(g[s[t]].op)
    {
      assert s[u] !in s[..t];
    }
  }

  /**
   * After Backward from `root`, every node's `Grad` is the one it had after
   * seeding plus what the rules of the nodes `root` reaches add to it,
   * each computed from the final gradients.
   */
  lemma BackwardAdjoint(m: Libm, g: Arena, root: nat, topo: seq<nat>, n: nat)
    requires WellFormed(g) && root < |g| && IsTopoOrder(g, root, topo) && n < |g|
    ensures var s := Seed(g, root); var h := Rules(m, s, topo);
      h[n].grad == s[n].grad + SumDelta(m, h, topo, n)
  {
    var s := Seed(g, root);
    TopoOrderSameShape(g, s, root, topo);
    TopoParentsFirst(s, topo);
    RulesAdjoint(m, s, topo, n);
  }

  /** A node no listed rule has as an operand receives nothing from them. */
  lemma {:induction false} SumDeltaNotChild(m: Libm, g: Arena, s: seq<nat>, n: nat)
    requires WellFormed(g) && AllIn(g, s)
    requires forall i :: 0 <= i < |s| ==> n !in Children(g[s[i]].op)
    ensures SumDelta(m, g, s, n) == 0.0
    decreases |s|
  {
    if s != [] {
      DeltaOnlyToChildren(m, g, s[0], n);
      SumDeltaNotChild(m, g, s[1..], n);
    }
  }

  /**
   * Backward from `root` sets the root's `Grad` to 1 and leaves every node
   * the root does not reach as it was; no node's `Data` or operands change.
   */
  lemma BackwardFrame(m: Libm, g: Arena, root: nat, topo: seq<nat>, n: nat)
    requires WellFormed(g) && root < |g| && IsTopoOrder(g, root, topo) && n < |g|
    ensures SameShape(g, Rules(m, Seed(g, root), topo))
    ensures n == root ==> Rules(m, Seed(g, root), topo)[n].grad == 1.0
    ensures n !in Reach(g, root) ==> Rules(m, Seed(g, root), topo)[n] == g[n]
  {
    var s := Seed(g, root);
    var h := Rules(m, s, topo);
    BackwardAdjoint(m, g, root, topo, n);
    TopoOrderSameShape(g, h, root, topo);
    if n == root || n !in Reach(g, root) {
      forall i | 0 <= i < |topo|
        ensures n !in Children(h[topo[i]].op)
      {
        // A topological list has the operands of topo[i] before it, and n is
        // not there: the root is listed last, and an unreached node not at all.
        assert n !in topo[..i];
        assert h[topo[i]].op == g[topo[i]].op;
      }
      SumDeltaNotChild(m, h, topo, n);
    }
  }

  /**
   * When at most one listed node `q` has `c` as an operand, the listed rules
   * add to `c` what the rule of `q` adds, or nothing if `q` is not listed.
   */
  lemma {:induction false} SumDeltaSole(m: Libm, h: Arena, s: seq<nat>, c: nat, q: nat)
    requires WellFormed(h) && AllIn(h, s) && Distinct(s)
    requires forall i :: 0 <= i < |s| && s[i] != q ==> c !in Children(h[s[i]].op)
    ensures q in s ==> q < |h| && SumDelta(m, h, s, c) == Delta(m, h, q, c)
    ensures q !in s ==> SumDelta(m, h, s, c) == 0.0
    decreases |s|
  {
    if s != [] {
      var rest := s[1..];
      assert forall i :: 0 <= i < |rest| ==> rest[i] == s[i + 1];
      SumDeltaSole(m, h, rest, c, q);
      if s[0] == q {
        assert q !in rest;
        SumDeltaNotChild(m, h, rest, c);
      } else {
        DeltaOnlyToChildren(m, h, s[0], c);
        assert (q in s) == (q in rest);
      }
    }
  }

  /**
   * After Backward from `root`, a node `c` other than the root whose only
   * reachable parent is `q` ends with its old `Grad` plus what the rule of
   * `q` adds to it, computed from the final gradients.
   */
  lemma GradOfSoleParent(m: Libm, g: Arena, root: nat, topo: seq<nat>, c: nat, q: nat)
    requires WellFormed(g) && root < |g| && IsTopoOrder(g, root, topo) && c < |g| && c != root
    requires q in Reach(g, root)
    requires forall x :: x in Reach(g, root) && x != q ==> c !in Children(g[x].op)
    ensures q < |g|
    ensures var h := Rules(m, Seed(g, root), topo); h[c].grad == g[c].grad + Delta(m, h, q, c)
  {
    ReachBelow(g, root, q);
    var h := Rules(m, Seed(g, root), topo);
    BackwardAdjoint(m, g, root, topo, c);
    TopoOrderSameShape(g, h, root, topo);
    forall i | 0 <= i < |topo| && topo[i] != q
      ensures c !in Children(h[topo[i]].op)
    {
      assert topo[i] in Elems(topo);
    }
    assert q in Elems(topo);
    SumDeltaSole(m, h, topo, c, q);
  }

  /** `q` is the only node reachable from `root` that has `c`, another node than the root, as an operand. */
  ghost predicate SoleParent(g: Arena, root: nat, c: nat, q: nat)
    requires WellFormed(g) && root < |g|
  {
    && c < |g| && c != root && q < |g| && q in Reach(g, root)
    && forall x :: x in Reach(g, root) && x < |g| && x != q ==> c !in Children(g[x].op)
  }

  /** An operand of a reachable `q` that no other reachable node has as an operand is reachable, with `q` its sole parent. */
  lemma SoleParentOf(g: Arena, root: nat, c: nat, q: nat)
    requires WellFormed(g) && root < |g| && q < |g| && q in Reach(g, root) && c in Children(g[q].op)
    requires forall x :: x in Reach(g, root) && x < |g| && x != q ==> c !in Children(g[x].op)
    ensures c in Reach(g, root) && SoleParent(g, root, c, q)
  {
    ReachBelow(g, root, q);
    ReachClosed(g, root, q, c);
  }

  /**
   * What Backward from `root` guarantees of the arena `r` it leaves, stated
   * without the list it ran the rules in: only `Grad` changed, the root
   * holds 1, and a node with one reachable parent holds its old `Grad` plus
   * what that parent's rule passes it.
   */
  ghost predicate Backpropagated(m: Libm, g: Arena, root: nat, r: Arena)
  {
    && WellFormed(g) && root < |g| && SameShape(g, r) && WellFormed(r) && r[root].grad == 1.0
    && forall c: nat, q: nat {:trigger SoleParent(g, root, c, q)} :: SoleParent(g, root, c, q) ==>
         r[c].grad == g[c].grad + Delta(m, r, q, c)
  }

  /** Backward from `root` leaves an arena with the guarantees above. */
  lemma BackwardBackpropagated(m: Libm, g: Arena, root: nat, topo: seq<nat>)
    requires WellFormed(g) && root < |g| && IsTopoOrder(g, root, topo)
    ensures Backpropagated(m, g, root, Rules(m, Seed(g, root), topo))
  {
    var r := Rules(m, Seed(g, root), topo);
    BackwardFrame(m, g, root, topo, root);
    forall c: nat, q: nat | SoleParent(g, root, c, q)
      ensures r[c].grad == g[c].grad + Delta(m, r, q, c)
    {
      forall x | x in Reach(g, root) && x != q
        ensures c !in Children(g[x].op)
      {
        ReachBelow(g, root, x);
      }
      GradOfSoleParent(m, g, root, topo, c, q);
    }
  }

  /** `q` is the one node from index `lo` on that has `c` as an operand. */
  ghost predicate OnlyParent(g: Arena, lo: nat, c: nat, q: nat)
  {
    && q < |g| && c in Children(g[q].op)
    && forall x {:trigger Children(g[x].op)} :: lo <= x < |g| && x != q ==> c !in Children(g[x].op)
  }

  /** `c` is an operand of `q` alone from index `lo` on, and starts with a zero `Grad`: one step of a path Backward follows. */
  ghost predicate Link(g: Arena, lo: nat, c: nat, q: nat)
  {
    c < |g| && OnlyParent(g, lo, c, q) && g[c].grad == 0.0
  }

  /** Every node below `lo` that `root` reaches is a leaf. */
  ghost predicate LeavesBelow(g: Arena, root: nat, lo: nat)
    requires WellFormed(g) && root < |g|
  {
    forall x {:trigger x in Reach(g, root)} :: 0 <= x < |g| && x in Reach(g, root) && x < lo ==> g[x].op.Leaf?
  }

  /**
   * After Backward, an operand whose only parent from `lo` on is a reachable
   * `q`, where nothing below `lo` that the root reaches has operands, is
   * reachable too and holds its old `Grad` plus what `q` passes it.
   */
  lemma GradOfOnlyParent(m: Libm, g: Arena, root: nat, r: Arena, lo: nat, c: nat, q: nat)
    requires Backpropagated(m, g, root, r) && OnlyParent(g, lo, c, q) && q in Reach(g, root)
    requires lo == 0 || LeavesBelow(g, root, lo)
    ensures c in Reach(g, root) && r[c].grad == g[c].grad + Delta(m, r, q, c)
  {
    SoleParentOf(g, root, c, q);
  }

  /** After Backward, the only reachable parent of `c` being an Add, `c` receives that Add's gradient. */
  lemma AddGrad(m: Libm, g: Arena, root: nat, r: Arena, lo: nat, c: nat, q: nat, b: nat)
    requires Backpropagated(m, g, root, r) && OnlyParent(g, lo, c, q) && q in Reach(g, root)
    requires lo == 0 || LeavesBelow(g, root, lo)
    requires (g[q].op == Op.Add(c, b) || g[q].op == Op.Add(b, c)) && b != c
    ensures c in Reach(g, root) && r[c].grad == g[c].grad + r[q].grad
  {
    GradOfOnlyParent(m, g, root, r, lo, c, q);
  }

  /** After Backward, the only reachable parent of `c` being a Mul, `c` receives its gradient times the other factor's `Data`. */
  lemma MulGrad(m: Libm, g: Arena, root: nat, r: Arena, lo: nat, c: nat, q: nat, b: nat)
    requires Backpropagated(m, g, root, r) && OnlyParent(g, lo, c, q) && q in Reach(g, root)
    requires lo == 0 || LeavesBelow(g, root, lo)
    requires (g[q].op == Op.Mul(c, b) || g[q].op == Op.Mul(b, c)) && b != c
    ensures c in Reach(g, root) && r[c].grad == g[c].grad + r[q].grad * g[b].data
  {
    GradOfOnlyParent(m, g, root, r, lo, c, q);
  }

  /** After Backward, the only reachable parent of `c` being a Pow, `c` receives its gradient times e c^(e-1). */
  lemma PowGrad(m: Libm, g: Arena, root: nat, r: Arena, lo: nat, c: nat, q: nat, e: real)
    requires Backpropagated(m, g, root, r) && OnlyParent(g, lo, c, q) && q in Reach(g, root)
    requires lo == 0 || LeavesBelow(g, root, lo)
    requires g[q].op == Op.Pow(c, e)
    ensures c in Reach(g, root) && r[c].grad == g[c].grad + r[q].grad * (e * Power(m, g[c].data, e - 1.0))
  {
    GradOfOnlyParent(m, g, root, r, lo, c, q);
  }

  /** After Backward, the only reachable parent of `c` being a ReLU, `c` receives its gradient when its `Data` is positive, and nothing otherwise. */
  lemma ReluGrad(m: Libm, g: Arena, root: nat, r: Arena, lo: nat, c: nat, q: nat)
    requires Backpropagated(m, g, root, r) && OnlyParent(g, lo, c, q) && q in Reach(g, root)
    requires lo == 0 || LeavesBelow(g, root, lo)
    requires g[q].op == Op.ReLU(c)
    ensures c in Reach(g, root) && r[c].grad == g[c].grad + (if g[c].data > 0.0 then r[q].grad else 0.0)
  {
    GradOfOnlyParent(m, g, root, r, lo, c, q);
  }
}
