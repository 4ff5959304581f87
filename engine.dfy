/**
 * The scalar reverse-mode autodiff engine of micrograd/engine.go.
 *
 * Go keeps every `*Value` on the heap and lets nodes point at their
 * operands.  Here the heap is an arena: a `Graph` object owns the sequence of
 * all nodes ever built, and a pointer to a node is its index in that sequence.
 * A node only ever refers to operands that existed before it, so every child
 * index is smaller than its parent's index; that is what keeps the graph
 * acyclic and what makes the depth-first search terminate.
 *
 * The Go closure stored in `backward` is replaced by a tag (`Op`) saying which
 * operation built the node and from which operands; `Delta` is the amount
 * the closure adds to an operand's `Grad`.
 */
module Engine {

  /** Strictly positive reals: the range of the exponential function. */
  type Positive = r: real | r > 0.0 witness 1.0

  /**
   * The routines of Go's math package that the operations call.  Only their
   * use is modelled, so they are supplied by whoever creates the graph:
   * `log` for math.Log, `tanh` for math.Tanh, `exp` for math.Exp and `pow`
   * for math.Pow at exponents that are not non-negative integers.
   */
  datatype Libm = Libm(log: real -> real, tanh: real -> real, exp: real -> Positive, pow: (real, real) -> real)

  /** Which operation built a node, and the arena indices of its operands. */
  datatype Op =
    | Leaf
    | Add(a: nat, b: nat)
    | Mul(a: nat, b: nat)
    | Pow(a: nat, p: real)
    | Log(a: nat)
    | ReLU(a: nat)
    | Tanh(a: nat)
    | Sigmoid(a: nat)

  /** The ordered `Children` list of a node built by `op`. */
  function Children(op: Op): seq<nat>
  {
    match op
    case Leaf => []
    case Add(a, b) => [a, b]
    case Mul(a, b) => [a, b]
    case Pow(a, _) => [a]
    case Log(a) => [a]
    case ReLU(a) => [a]
    case Tanh(a) => [a]
    case Sigmoid(a) => [a]
  }

  /** A node: the forward value `Data`, the accumulated `Grad`, and how it was built. */
  datatype Value = Value(data: real, grad: real, op: Op)

  /** All nodes built so far; index `i` plays the role of a Go `*Value`. */
  type Arena = seq<Value>

  /** Every operand of `op` was allocated before index `i`. */
  predicate Below(op: Op, i: nat)
  {
    !op.Leaf? ==> op.a < i && ((op.Add? || op.Mul?) ==> op.b < i)
  }

  /** The arena invariant: operands precede the nodes built from them. */
  predicate WellFormed(g: Arena)
  {
    forall i :: 0 <= i < |g| ==> Below(g[i].op, i)
  }

  /** Two arenas differ at most in their `Grad` fields. */
  predicate SameShape(g: Arena, h: Arena)
  {
    |g| == |h| && forall i :: 0 <= i < |g| ==> h[i].data == g[i].data && h[i].op == g[i].op
  }

  lemma BelowChildren(op: Op, i: nat, c: nat)
    requires Below(op, i) && c in Children(op)
    ensures c < i
  {
  }

  lemma SameShapeWellFormed(g: Arena, h: Arena)
    requires WellFormed(g) && SameShape(g, h)
    ensures WellFormed(h)
  {
    forall i | 0 <= i < |h|
      ensures Below(h[i].op, i)
    {
      assert h[i].op == g[i].op;
    }
  }

  /** The second operand of Add and Mul: a node, or a Go float64/int literal. */
  datatype Operand = Node(id: nat) | Num(x: real)

  /** The operand refers to an existing node of `g`. */
  predicate OperandIn(g: Arena, o: Operand)
  {
    o.Node? ==> o.id < |g|
  }

  /** The arena after the type switch of Add/Mul: a literal becomes a fresh leaf. */
  function Lifted(g: Arena, o: Operand): Arena
  {
    match o
    case Node(_) => g
    case Num(x) => g + [Value(x, 0.0, Leaf)]
  }

  /** The index of the operand after the type switch of Add/Mul. */
  function LiftedIndex(g: Arena, o: Operand): nat
  {
    match o
    case Node(id) => id
    case Num(_) => |g|
  }

  // ---------------------------------------------------------------------------
  // Forward formulas
  // ---------------------------------------------------------------------------

  /** x^k for a natural k. */
  function IntPow(x: real, k: nat): real
  {
    if k == 0 then 1.0 else x * IntPow(x, k - 1)
  }

  /** math.Pow(x, p): exact when p is a non-negative integer, the library routine otherwise. */
  function Power(m: Libm, x: real, p: real): (r: real)
    ensures p == 0.0 ==> r == 1.0
    ensures p == 1.0 ==> r == x
  {
    assert (0.0).Floor == 0 && (1.0).Floor == 1;
    assert IntPow(x, 1) == x * IntPow(x, 0) == x;
    if 0.0 <= p && p == p.Floor as real then IntPow(x, p.Floor) else m.pow(x, p)
  }

  /** The exponent 2 squares exactly. */
  lemma PowerSquare(m: Libm, x: real)
    ensures Power(m, x, 2.0) == x * x
  {
    assert (2.0).Floor == 2;
    assert IntPow(x, 2) == x * IntPow(x, 1) == x * x;
  }

  /** math.Max(math.Log(x), -100): the natural log, clamped from below. */
  function ClampedLog(m: Libm, x: real): (r: real)
    ensures r >= -100.0
    ensures r == m.log(x) || r == -100.0
  {
    if m.log(x) >= -100.0 then m.log(x) else -100.0
  }

  /** 1 / (1 + e^-x): the logistic sigmoid, which lies strictly between 0 and 1. */
  function Logistic(m: Libm, x: real): (s: real)
    ensures 0.0 < s < 1.0
  {
    var d := 1.0 + m.exp(-x);
    assert d > 1.0;
    1.0 / d
  }

  /** The ReLU forward value: the input when it is positive, 0 otherwise. */
  function Relu(x: real): (r: real)
    ensures r >= 0.0
    ensures r == x || r == 0.0
  {
    if x <= 0.0 then 0.0 else x
  }

  /**
   * out.Grad / (v.Data + 1e-4), the Log rule.  Go divides even when the
   * divisor is zero (giving an infinity or NaN); that case adds 0 here.
   */
  function LogRuleGrad(up: real, x: real): (r: real)
    ensures x + 0.0001 != 0.0 ==> r * (x + 0.0001) == up
    ensures x + 0.0001 == 0.0 ==> r == 0.0
  {
    if x + 0.0001 == 0.0 then 0.0 else up / (x + 0.0001)
  }

  // ---------------------------------------------------------------------------
  // Backward rules
  // ---------------------------------------------------------------------------

  /** `d` if the operand slot `c` is node `n`, and 0 otherwise. */
  function Share(c: nat, n: nat, d: real): real
  {
    if c == n then d else 0.0
  }

  /**
   * The amount the backward rule of node `p` adds to the `Grad` of node `n`
   * when it runs in state `g` (the rule reads `p`'s own `Grad` and the `Data`
   * of `p` and its operands).  An operand that fills both slots of Add or
   * Mul receives both contributions.
   */
  function Delta(m: Libm, g: Arena, p: nat, n: nat): (r: real)
    requires WellFormed(g) && p < |g|
  {
    var out := g[p];
    match out.op
    case Leaf => 0.0
    case Add(a, b) => Share(a, n, out.grad) + Share(b, n, out.grad)
    case Mul(a, b) => Share(a, n, out.grad * g[b].data) + Share(b, n, out.grad * g[a].data)
    case Pow(a, e) => Share(a, n, out.grad * (e * Power(m, g[a].data, e - 1.0)))
    case Log(a) => Share(a, n, LogRuleGrad(out.grad, g[a].data))
    case ReLU(a) => if g[a].data > 0.0 then Share(a, n, out.grad) else 0.0
    case Tanh(a) => Share(a, n, (1.0 - Power(m, out.data, 2.0)) * out.grad)
    case Sigmoid(a) => Share(a, n, out.grad * out.data * (1.0 - out.data))
  }

  /** A rule adds only to the operands of its node. */
  lemma DeltaOnlyToChildren(m: Libm, g: Arena, p: nat, n: nat)
    requires WellFormed(g) && p < |g| && n !in Children(g[p].op)
    ensures Delta(m, g, p, n) == 0.0
  {
  }

  /** A rule reads only its node's `Grad` and the `Data` of the arena. */
  lemma DeltaFrame(m: Libm, g: Arena, h: Arena, p: nat, n: nat)
    requires WellFormed(g) && SameShape(g, h) && p < |g| && g[p].grad == h[p].grad
    ensures WellFormed(h) && Delta(m, g, p, n) == Delta(m, h, p, n)
  {
    SameShapeWellFormed(g, h);
  }

  /** The state after the backward rule of node `p` has run in state `g`. */
  function Apply(m: Libm, g: Arena, p: nat): (h: Arena)
    requires WellFormed(g) && p < |g|
    ensures SameShape(g, h) && WellFormed(h)
  {
    var h := seq(|g|, n requires 0 <= n < |g| => g[n].(grad := g[n].grad + Delta(m, g, p, n)));
    SameShapeWellFormed(g, h);
    h
  }

  /** A rule that adds `d` to its one operand `a`, as a single update. */
  lemma ApplyOne(m: Libm, g: Arena, p: nat, a: nat, d: real)
    requires WellFormed(g) && p < |g| && a < |g|
    requires forall n :: 0 <= n < |g| ==> Delta(m, g, p, n) == Share(a, n, d)
    ensures Apply(m, g, p) == g[a := g[a].(grad := g[a].grad + d)]
  {
  }

  /** A rule that adds `da` to operand `a` and then `db` to operand `b`, as two updates. */
  lemma ApplyTwo(m: Libm, g: Arena, p: nat, a: nat, b: nat, da: real, db: real)
    requires WellFormed(g) && p < |g| && a < |g| && b < |g|
    requires forall n :: 0 <= n < |g| ==> Delta(m, g, p, n) == Share(a, n, da) + Share(b, n, db)
    ensures var h := g[a := g[a].(grad := g[a].grad + da)];
      Apply(m, g, p) == h[b := h[b].(grad := h[b].grad + db)]
  {
  }

  /** The Add rule: `v.Grad += out.Grad`, then `other.Grad += out.Grad`. */
  lemma ApplyAdd(m: Libm, g: Arena, p: nat, a: nat, b: nat)
    requires WellFormed(g) && p < |g| && g[p].op == Op.Add(a, b)
    ensures a < |g| && b < |g|
    ensures var up := g[p].grad; var h := g[a := g[a].(grad := g[a].grad + up)];
      Apply(m, g, p) == h[b := h[b].(grad := h[b].grad + up)]
  {
    ApplyTwo(m, g, p, a, b, g[p].grad, g[p].grad);
  }

  /** The Mul rule: `v.Grad += out.Grad * other.Data`, then `other.Grad += out.Grad * v.Data`. */
  lemma ApplyMul(m: Libm, g: Arena, p: nat, a: nat, b: nat, da: real, db: real)
    requires WellFormed(g) && p < |g| && g[p].op == Op.Mul(a, b)
    requires da == g[p].grad * g[b].data && db == g[p].grad * g[a].data
    ensures a < |g| && b < |g|
    ensures var h := g[a := g[a].(grad := g[a].grad + da)];
      Apply(m, g, p) == h[b := h[b].(grad := h[b].grad + db)]
  {
    ApplyTwo(m, g, p, a, b, da, db);
  }

  /** The Pow rule: `v.Grad += out.Grad * (e * v.Data^(e-1))`. */
  lemma ApplyPow(m: Libm, g: Arena, p: nat, a: nat, e: real, d: real)
    requires WellFormed(g) && p < |g| && g[p].op == Op.Pow(a, e)
    requires d == g[p].grad * (e * Power(m, g[a].data, e - 1.0))
    ensures a < |g|
    ensures Apply(m, g, p) == g[a := g[a].(grad := g[a].grad + d)]
  {
    ApplyOne(m, g, p, a, d);
  }

  /** The Log rule: `v.Grad += out.Grad / (v.Data + 1e-4)`. */
  lemma ApplyLog(m: Libm, g: Arena, p: nat, a: nat, d: real)
    requires WellFormed(g) && p < |g| && g[p].op == Op.Log(a)
    requires d == LogRuleGrad(g[p].grad, g[a].data)
    ensures a < |g|
    ensures Apply(m, g, p) == g[a := g[a].(grad := g[a].grad + d)]
  {
    ApplyOne(m, g, p, a, d);
  }

  /** The ReLU rule: `v.Grad += out.Grad` when `v.Data > 0`, and nothing otherwise. */
  lemma ApplyRelu(m: Libm, g: Arena, p: nat, a: nat)
    requires WellFormed(g) && p < |g| && g[p].op == Op.ReLU(a)
    ensures a < |g|
    ensures Apply(m, g, p) == if g[a].data > 0.0 then g[a := g[a].(grad := g[a].grad + g[p].grad)] else g
  {
    if g[a].data > 0.0 {
      ApplyOne(m, g, p, a, g[p].grad);
    } else {
      ApplyOne(m, g, p, a, 0.0);
      assert g[a := g[a].(grad := g[a].grad + 0.0)] == g;
    }
  }

  /** The Tanh rule: `v.Grad += (1 - out.Data^2) * out.Grad`. */
  lemma ApplyTanh(m: Libm, g: Arena, p: nat, a: nat, d: real)
    requires WellFormed(g) && p < |g| && g[p].op == Op.Tanh(a)
    requires d == (1.0 - Power(m, g[p].data, 2.0)) * g[p].grad
    ensures a < |g|
    ensures Apply(m, g, p) == g[a := g[a].(grad := g[a].grad + d)]
  {
    ApplyOne(m, g, p, a, d);
  }

  /** The Sigmoid rule: `v.Grad += out.Grad * out.Data * (1 - out.Data)`. */
  lemma ApplySigmoid(m: Libm, g: Arena, p: nat, a: nat, d: real)
    requires WellFormed(g) && p < |g| && g[p].op == Op.Sigmoid(a)
    requires d == g[p].grad * g[p].data * (1.0 - g[p].data)
    ensures a < |g|
    ensures Apply(m, g, p) == g[a := g[a].(grad := g[a].grad + d)]
  {
    ApplyOne(m, g, p, a, d);
  }

  /**
   * The state after the rules of `s[|s|-1]`, `s[|s|-2]`, ..., `s[0]` have run,
   * in that order, starting from `g`: the descending loop of Backward.
   */
  function Rules(m: Libm, g: Arena, s: seq<nat>): (h: Arena)
    requires WellFormed(g) && forall i :: 0 <= i < |s| ==> s[i] < |g|
    ensures SameShape(g, h) && WellFormed(h)
    decreases |s|
  {
    if s == [] then g
    else
      var rest := Rules(m, g, s[1..]);
      Apply(m, rest, s[0])
  }

  /** The root's `Grad` overwritten with 1, the first step of Backward. */
  function Seed(g: Arena, root: nat): (h: Arena)
    requires root < |g|
    ensures SameShape(g, h) && h[root].grad == 1.0
    ensures forall i :: 0 <= i < |g| && i != root ==> h[i] == g[i]
  {
    g[root := g[root].(grad := 1.0)]
  }

  // ---------------------------------------------------------------------------
  // Reachability and topological order
  // ---------------------------------------------------------------------------

  /** The nodes reachable from `r` by following operand edges, `r` included. */
  ghost function Reach(g: Arena, r: nat): set<nat>
    requires WellFormed(g) && r < |g|
    decreases r
  {
    var op := g[r].op;
    {r} + (if op.Leaf? then {} else Reach(g, op.a)) + (if op.Add? || op.Mul? then Reach(g, op.b) else {})
  }

  /** The nodes reachable from any of `cs`. */
  ghost function ReachAll(g: Arena, cs: seq<nat>): set<nat>
    requires WellFormed(g) && forall i :: 0 <= i < |cs| ==> cs[i] < |g|
    decreases |cs|
  {
    if cs == [] then {} else ReachAll(g, cs[..|cs| - 1]) + Reach(g, cs[|cs| - 1])
  }

  /** Only nodes at or below `r` are reachable from `r`. */
  lemma {:induction false} ReachBelow(g: Arena, r: nat, x: nat)
    requires WellFormed(g) && r < |g| && x in Reach(g, r)
    ensures x <= r
    decreases r
  {
    var op := g[r].op;
    if x != r {
      if !op.Leaf? && x in Reach(g, op.a) {
        ReachBelow(g, op.a, x);
      } else {
        ReachBelow(g, op.b, x);
      }
    }
  }

  /** Reach of a node is the node and whatever its children reach. */
  lemma ReachUnfold(g: Arena, r: nat)
    requires WellFormed(g) && r < |g|
    ensures forall c :: c in Children(g[r].op) ==> c < |g|
    ensures Reach(g, r) == {r} + ReachAll(g, Children(g[r].op))
  {
    var op := g[r].op;
    var cs := Children(op);
    if op.Leaf? {
      assert cs == [];
    } else if op.Add? || op.Mul? {
      assert cs == [op.a, op.b];
      assert cs[..1] == [op.a];
      assert [op.a][..0] == [];
      assert ReachAll(g, [op.a]) == Reach(g, op.a);
      assert ReachAll(g, cs) == Reach(g, op.a) + Reach(g, op.b);
    } else {
      assert cs == [op.a];
      assert cs[..0] == [];
      assert ReachAll(g, cs) == Reach(g, op.a);
    }
  }

  /** Every node reachable from one of `cs` is below `bound` when all of `cs` are. */
  lemma ReachAllBelow(g: Arena, cs: seq<nat>, bound: nat, x: nat)
    requires WellFormed(g) && forall i :: 0 <= i < |cs| ==> cs[i] < bound <= |g|
    requires x in ReachAll(g, cs)
    ensures x < bound
    decreases |cs|
  {
    if x in Reach(g, cs[|cs| - 1]) {
      ReachBelow(g, cs[|cs| - 1], x);
    } else {
      ReachAllBelow(g, cs[..|cs| - 1], bound, x);
    }
  }

  /** Each of `cs` is among the nodes reachable from `cs`. */
  lemma ReachAllContains(g: Arena, cs: seq<nat>, c: nat)
    requires WellFormed(g) && forall i :: 0 <= i < |cs| ==> cs[i] < |g|
    requires c in cs
    ensures c in ReachAll(g, cs)
    decreases |cs|
  {
    if c != cs[|cs| - 1] {
      assert c in cs[..|cs| - 1];
      ReachAllContains(g, cs[..|cs| - 1], c);
    }
  }

  /** A set closed under taking children holds everything reachable from its members. */
  lemma {:induction false} ClosedContainsReach(g: Arena, s: set<nat>, r: nat)
    requires WellFormed(g) && r < |g| && r in s
    requires forall x, c :: x in s && x < |g| && c in Children(g[x].op) ==> c in s
    ensures Reach(g, r) <= s
    decreases r
  {
    var op := g[r].op;
    if !op.Leaf? {
      assert op.a in Children(op);
      ClosedContainsReach(g, s, op.a);
      if op.Add? || op.Mul? {
        assert op.b in Children(op);
        ClosedContainsReach(g, s, op.b);
      }
    }
  }

  /** What is reachable from a node's operand is reachable from every node that reaches it. */
  lemma {:induction false} ReachClosed(g: Arena, r: nat, p: nat, c: nat)
    requires WellFormed(g) && r < |g| && p < |g| && p in Reach(g, r) && c in Children(g[p].op)
    ensures c in Reach(g, r)
    decreases r
  {
    ReachBelow(g, r, p);
    var op := g[r].op;
    if p == r {
      assert c == op.a || c == op.b;
    } else if !op.Leaf? && p in Reach(g, op.a) {
      ReachClosed(g, op.a, p, c);
    } else {
      ReachClosed(g, op.b, p, c);
    }
  }

  /** Reachability depends on the operands only, not on `Data` or `Grad`. */
  lemma {:induction false} ReachSameShape(g: Arena, h: Arena, r: nat)
    requires WellFormed(g) && SameShape(g, h) && r < |g|
    ensures WellFormed(h) && Reach(g, r) == Reach(h, r)
    decreases r
  {
    SameShapeWellFormed(g, h);
    var op := g[r].op;
    assert h[r].op == op;
    if !op.Leaf? {
      ReachSameShape(g, h, op.a);
      if op.Add? || op.Mul? {
        ReachSameShape(g, h, op.b);
      }
    }
  }

  /** No node is listed twice. */
  predicate Distinct(s: seq<nat>)
  {
    forall i, j :: 0 <= i < j < |s| ==> s[i] != s[j]
  }

  /** Every listed node is a node of `g`, and its operands are listed before it. */
  predicate ChildrenFirst(g: Arena, s: seq<nat>)
  {
    && (forall i :: 0 <= i < |s| ==> s[i] < |g|)
    && (forall i, c :: 0 <= i < |s| && c in Children(g[s[i]].op) ==> c in s[..i])
  }

  /**
   * `s` is a topological order of what `root` reaches: every reachable node
   * exactly once and nothing else, operands before the nodes built from them,
   * and the root last.
   */
  ghost predicate IsTopoOrder(g: Arena, root: nat, s: seq<nat>)
    requires WellFormed(g) && root < |g|
  {
    && Distinct(s)
    && ChildrenFirst(g, s)
    && Elems(s) == Reach(g, root)
    && |s| > 0 && s[|s| - 1] == root
  }

  /** A topological order depends on the operands only. */
  lemma TopoOrderSameShape(g: Arena, h: Arena, root: nat, s: seq<nat>)
    requires WellFormed(g) && SameShape(g, h) && root < |g|
    requires IsTopoOrder(h, root, s) || IsTopoOrder(g, root, s)
    ensures WellFormed(h) && IsTopoOrder(g, root, s) && IsTopoOrder(h, root, s)
  {
    ReachSameShape(g, h, root);
    assert forall i :: 0 <= i < |s| && s[i] < |g| ==> g[s[i]].op == h[s[i]].op;
  }

  /** A node listed in a topological list has everything it reaches listed too. */
  lemma ListedReach(g: Arena, s: seq<nat>, node: nat)
    requires WellFormed(g) && ChildrenFirst(g, s) && node < |g| && node in Elems(s)
    ensures Reach(g, node) <= Elems(s)
  {
    var listed := Elems(s);
    forall x, c | x in listed && x < |g| && c in Children(g[x].op)
      ensures c in listed
    {
      var i :| 0 <= i < |s| && s[i] == x;
      assert c in s[..i];
    }
    ClosedContainsReach(g, listed, node);
  }

  /** Extending the searched prefix of `cs` by one child. */
  lemma ReachAllSnoc(g: Arena, cs: seq<nat>, j: nat)
    requires WellFormed(g) && j < |cs| && forall i :: 0 <= i < |cs| ==> cs[i] < |g|
    ensures ReachAll(g, cs[..j + 1]) == ReachAll(g, cs[..j]) + Reach(g, cs[j])
  {
    assert cs[..j + 1][..j] == cs[..j];
  }

  /** Listing a node after all of its operands keeps the list a topological one. */
  lemma AppendListed(g: Arena, s: seq<nat>, node: nat)
    requires Distinct(s) && ChildrenFirst(g, s) && node < |g| && node !in Elems(s)
    requires forall c :: c in Children(g[node].op) ==> c in Elems(s)
    ensures Distinct(s + [node]) && ChildrenFirst(g, s + [node]) && (s + [node])[..|s|] == s
    ensures Elems(s + [node]) == Elems(s) + {node}
  {
    var t := s + [node];
    forall i, c | 0 <= i < |t| && c in Children(g[t[i]].op)
      ensures c in t[..i]
    {
      if i < |s| {
        assert t[..i] == s[..i];
      } else {
        assert t[..i] == s;
      }
    }
  }

  /** The set of listed nodes. */
  function Elems(s: seq<nat>): set<nat>
  {
    set x | x in s
  }

  /** The searches in progress stay above each child of `node` that is searched next. */
  lemma InProgressAbove(node: nat, c: nat, visited: set<nat>, listed: set<nat>, found: set<nat>)
    requires c < node && node in visited && forall x :: x in visited - listed ==> node <= x
    ensures forall x :: x in (visited + found) - (listed + found) ==> c < x
  {
    forall x | x in (visited + found) - (listed + found)
      ensures c < x
    {
      assert x in visited - listed;
    }
  }

  /** Marking `node` visited keeps every search in progress at or above it. */
  lemma EnterNode(node: nat, visited: set<nat>, listed: set<nat>)
    requires forall x :: x in visited - listed ==> node < x
    ensures forall x :: x in (visited + {node}) - listed ==> node <= x
  {
    forall x | x in (visited + {node}) - listed
      ensures node <= x
    {
      if x != node {
        assert x in visited - listed;
      }
    }
  }

  /** What a node reaches is the node and what its operands reach, so a node not yet visited is not among the latter. */
  lemma ReachOfNode(g: Arena, node: nat)
    requires WellFormed(g) && node < |g|
    ensures Reach(g, node) == {node} + ReachAll(g, Children(g[node].op))
    ensures node !in ReachAll(g, Children(g[node].op))
    ensures forall c :: c in Children(g[node].op) ==> c in ReachAll(g, Children(g[node].op))
  {
    var cs := Children(g[node].op);
    ReachUnfold(g, node);
    if node in ReachAll(g, cs) {
      ReachAllBelow(g, cs, node, node);
    }
    forall c | c in cs
      ensures c in ReachAll(g, cs)
    {
      ReachAllContains(g, cs, c);
    }
  }

  /**
   * Once the operands of a node first visited are searched, listing the
   * node completes the search from it: everything it reaches is visited
   * and listed, and the list stays topological.
   */
  lemma LeaveNode(g: Arena, node: nat, visited: set<nat>, topo: seq<nat>, v: set<nat>, t: seq<nat>)
    requires WellFormed(g) && node < |g| && node !in visited && Elems(topo) <= visited
    requires v == visited + {node} + ReachAll(g, Children(g[node].op))
    requires Elems(t) == Elems(topo) + ReachAll(g, Children(g[node].op))
    requires |topo| <= |t| && t[..|topo|] == topo && Distinct(t) && ChildrenFirst(g, t)
    ensures v == visited + Reach(g, node)
    ensures Elems(t + [node]) == Elems(topo) + Reach(g, node)
    ensures |topo| < |t + [node]| && (t + [node])[..|topo|] == topo && (t + [node])[|t|] == node
    ensures Distinct(t + [node]) && ChildrenFirst(g, t + [node])
  {
    ReachOfNode(g, node);
    AppendListed(g, t, node);
    assert (t + [node])[..|topo|] == t[..|topo|];
  }

  /**
   * buildTopo: the depth-first search of Backward.  `visited` and `topo` are
   * the map and slice the Go closure captures; nodes visited but not yet
   * listed are the ones whose search is still in progress, all of them above
   * `node`.
   */
  method Visit(g: Arena, node: nat, visited: set<nat>, topo: seq<nat>) returns (visited': set<nat>, topo': seq<nat>)
    requires WellFormed(g) && node < |g|
    requires Distinct(topo) && ChildrenFirst(g, topo)
    requires Elems(topo) <= visited
    requires forall x :: x in visited - Elems(topo) ==> node < x
    ensures visited' == visited + Reach(g, node)
    ensures Elems(topo') == Elems(topo) + Reach(g, node)
    ensures |topo| <= |topo'| && topo'[..|topo|] == topo
    ensures Distinct(topo') && ChildrenFirst(g, topo')
    ensures node !in visited ==> |topo| < |topo'| && topo'[|topo'| - 1] == node
    decreases node, 1
  {
    if node in visited {
      assert node !in visited - Elems(topo);
      ListedReach(g, topo, node);
      return visited, topo;
    }
    EnterNode(node, visited, Elems(topo));
    visited', topo' := VisitChildren(g, node, visited + {node}, topo);
    LeaveNode(g, node, visited, topo, visited', topo');
    topo' := topo' + [node];
  }

  /**
   * The state of the loop of buildTopo over the operands of `node` after the
   * first `j` of them: `v` and `t` extend `visited` and `topo` by exactly the
   * nodes reachable from those operands, and `t` is still a topological list.
   */
  ghost predicate Searched(g: Arena, node: nat, j: nat, visited: set<nat>, topo: seq<nat>, v: set<nat>, t: seq<nat>)
  {
    && WellFormed(g) && node < |g| && j <= |Children(g[node].op)|
    && (forall i :: 0 <= i < |Children(g[node].op)| ==> Children(g[node].op)[i] < node)
    && v == visited + ReachAll(g, Children(g[node].op)[..j])
    && Elems(t) == Elems(topo) + ReachAll(g, Children(g[node].op)[..j])
    && |topo| <= |t| && t[..|topo|] == topo
    && Distinct(t) && ChildrenFirst(g, t)
  }

  /** Before the first operand is searched, nothing has changed. */
  lemma SearchStart(g: Arena, node: nat, visited: set<nat>, topo: seq<nat>)
    requires WellFormed(g) && node < |g| && Distinct(topo) && ChildrenFirst(g, topo)
    ensures Searched(g, node, 0, visited, topo, visited, topo)
  {
    forall i | 0 <= i < |Children(g[node].op)|
      ensures Children(g[node].op)[i] < node
    {
      BelowChildren(g[node].op, node, Children(g[node].op)[i]);
    }
  }

  /** The search of the next operand may start: Visit's precondition holds. */
  lemma SearchNext(g: Arena, node: nat, j: nat, visited: set<nat>, topo: seq<nat>, v: set<nat>, t: seq<nat>)
    requires node in visited && Elems(topo) <= visited
    requires forall x :: x in visited - Elems(topo) ==> node <= x
    requires Searched(g, node, j, visited, topo, v, t) && j < |Children(g[node].op)|
    ensures Children(g[node].op)[j] < |g| && Elems(t) <= v
    ensures forall x :: x in v - Elems(t) ==> Children(g[node].op)[j] < x
  {
    var cs := Children(g[node].op);
    InProgressAbove(node, cs[j], visited, Elems(topo), ReachAll(g, cs[..j]));
  }

  /** After Visit returns from the next operand, the loop state covers one more operand. */
  lemma SearchStep(g: Arena, node: nat, j: nat, visited: set<nat>, topo: seq<nat>, v: set<nat>, t: seq<nat>, v': set<nat>, t': seq<nat>)
    requires Searched(g, node, j, visited, topo, v, t) && j < |Children(g[node].op)|
    requires v' == v + Reach(g, Children(g[node].op)[j])
    requires Elems(t') == Elems(t) + Reach(g, Children(g[node].op)[j])
    requires |t| <= |t'| && t'[..|t|] == t && Distinct(t') && ChildrenFirst(g, t')
    ensures Searched(g, node, j + 1, visited, topo, v', t')
  {
    ReachAllSnoc(g, Children(g[node].op), j);
    assert t'[..|topo|] == t'[..|t|][..|topo|];
  }

  /** The loop of buildTopo over `node.Children`, searching each child in order. */
  method VisitChildren(g: Arena, node: nat, visited: set<nat>, topo: seq<nat>) returns (visited': set<nat>, topo': seq<nat>)
    requires WellFormed(g) && node < |g| && node in visited
    requires Distinct(topo) && ChildrenFirst(g, topo)
    requires Elems(topo) <= visited
    requires forall x :: x in visited - Elems(topo) ==> node <= x
    ensures forall c :: c in Children(g[node].op) ==> c < |g|
    ensures visited' == visited + ReachAll(g, Children(g[node].op))
    ensures Elems(topo') == Elems(topo) + ReachAll(g, Children(g[node].op))
    ensures |topo| <= |topo'| && topo'[..|topo|] == topo
    ensures Distinct(topo') && ChildrenFirst(g, topo')
    decreases node, 0
  {
    visited', topo' := visited, topo;
    var cs := Children(g[node].op);
    SearchStart(g, node, visited, topo);
    for j := 0 to |cs|
      invariant Searched(g, node, j, visited, topo, visited', topo')
    {
      SearchNext(g, node, j, visited, topo, visited', topo');
      var v, t := Visit(g, cs[j], visited', topo');
      SearchStep(g, node, j, visited, topo, visited', topo', v, t);
      visited', topo' := v, t;
    }
    assert cs[..|cs|] == cs;
  }

  /** The topological list Backward walks: the search started at the root. */
  method BuildTopo(g: Arena, root: nat) returns (topo: seq<nat>)
    requires WellFormed(g) && root < |g|
    ensures IsTopoOrder(g, root, topo)
  {
    var visited;
    visited, topo := Visit(g, root, {}, []);
  }

  // ---------------------------------------------------------------------------
  // The heap of nodes
  // ---------------------------------------------------------------------------

  /** `h` is `g` with nodes appended after it: every existing node is untouched. */
  predicate Extends(g: Arena, h: Arena)
  {
    |g| <= |h| && h[..|g|] == g
  }

  /** Every one of `xs` is a node of `g`. */
  predicate AllIn(g: Arena, xs: seq<nat>)
  {
    forall i :: 0 <= i < |xs| ==> xs[i] < |g|
  }

  /** The `Data` of the nodes `xs`. */
  function DataOf(g: Arena, xs: seq<nat>): seq<real>
    requires AllIn(g, xs)
  {
    seq(|xs|, i requires 0 <= i < |xs| => g[xs[i]].data)
  }

  lemma DataOfExtends(g: Arena, h: Arena, xs: seq<nat>)
    requires AllIn(g, xs) && Extends(g, h)
    ensures AllIn(h, xs) && DataOf(h, xs) == DataOf(g, xs)
  {
    forall i | 0 <= i < |xs|
      ensures h[xs[i]] == g[xs[i]]
    {
      assert h[..|g|][xs[i]] == h[xs[i]];
    }
  }

  lemma ExtendsTrans(f: Arena, g: Arena, h: Arena)
    requires Extends(f, g) && Extends(g, h)
    ensures Extends(f, h)
  {
    assert h[..|f|] == h[..|g|][..|f|];
  }

  /** The leaves `MatrixToValues` creates, row after row. */
  function Flatten(x: seq<seq<real>>): seq<real>
    decreases |x|
  {
    if x == [] then [] else Flatten(x[..|x| - 1]) + x[|x| - 1]
  }

  /** The rows before row `i + 1` are those before row `i`, then row `i`. */
  lemma FlattenSnoc(x: seq<seq<real>>, i: nat)
    requires i < |x|
    ensures Flatten(x[..i + 1]) == Flatten(x[..i]) + x[i]
  {
    assert x[..i + 1][..i] == x[..i];
  }

  /** Row `i` starts no later than row `k` when `i <= k`. */
  lemma {:induction false} FlattenMonotone(x: seq<seq<real>>, i: nat, k: nat)
    requires i <= k <= |x|
    ensures |Flatten(x[..i])| <= |Flatten(x[..k])|
    decreases k
  {
    if i < k {
      FlattenSnoc(x, k - 1);
      FlattenMonotone(x, i, k - 1);
    }
  }

  /** Cell (i, j) sits in the flattened rows at the offset of row `i` plus `j`. */
  lemma {:induction false} FlattenCell(x: seq<seq<real>>, i: nat, j: nat)
    requires i < |x| && j < |x[i]|
    ensures |Flatten(x[..i])| + j < |Flatten(x)| && Flatten(x)[|Flatten(x[..i])| + j] == x[i][j]
    decreases |x|
  {
    var init := x[..|x| - 1];
    assert Flatten(x) == Flatten(init) + x[|x| - 1];
    if i == |x| - 1 {
      assert x[..i] == init;
    } else {
      assert init[..i] == x[..i] && init[i] == x[i];
      FlattenCell(init, i, j);
    }
  }

  /** Distinct cells of `x` sit at distinct offsets of the flattened rows. */
  lemma FlattenCellsDistinct(x: seq<seq<real>>, i: nat, j: nat, i': nat, j': nat)
    requires i < |x| && j < |x[i]| && i' < |x| && j' < |x[i']| && (i, j) != (i', j')
    ensures |Flatten(x[..i])| + j != |Flatten(x[..i'])| + j'
  {
    if i < i' {
      FlattenSnoc(x, i);
      FlattenMonotone(x, i + 1, i');
    } else if i' < i {
      FlattenSnoc(x, i');
      FlattenMonotone(x, i' + 1, i);
    }
  }

  /** Fresh leaves holding `xs`, in order. */
  /** One more cell of `row` adds one more leaf. */
  lemma LeavesSnoc(prefix: seq<real>, row: seq<real>, j: nat)
    requires j < |row|
    ensures Leaves(prefix + row[..j + 1]) == Leaves(prefix + row[..j]) + [Value(row[j], 0.0, Leaf)]
  {
    assert prefix + row[..j + 1] == (prefix + row[..j]) + [row[j]];
  }

  /**
   * Laying the matrix out row by row after `g` puts cell `(i, j)` at its own
   * index, holding a leaf with that cell's number.
   */
  lemma MatrixCells(g: Arena, x: seq<seq<real>>, out: seq<seq<nat>>)
    requires |out| == |x| && forall i :: 0 <= i < |x| ==> |out[i]| == |x[i]|
    requires forall i, j :: 0 <= i < |x| && 0 <= j < |x[i]| ==> out[i][j] == |g| + |Flatten(x[..i])| + j
    ensures forall i, j :: 0 <= i < |x| && 0 <= j < |x[i]| ==>
      |g| <= out[i][j] < |g + Leaves(Flatten(x))| && (g + Leaves(Flatten(x)))[out[i][j]] == Value(x[i][j], 0.0, Leaf)
    ensures forall i, j, i', j' :: 0 <= i < |x| && 0 <= j < |x[i]| && 0 <= i' < |x| && 0 <= j' < |x[i']| && (i, j) != (i', j') ==>
      out[i][j] != out[i'][j']
  {
    forall i, j | 0 <= i < |x| && 0 <= j < |x[i]|
      ensures |g| <= out[i][j] < |g + Leaves(Flatten(x))| && (g + Leaves(Flatten(x)))[out[i][j]] == Value(x[i][j], 0.0, Leaf)
    {
      FlattenCell(x, i, j);
    }
    forall i, j, i', j' | 0 <= i < |x| && 0 <= j < |x[i]| && 0 <= i' < |x| && 0 <= j' < |x[i']| && (i, j) != (i', j')
      ensures out[i][j] != out[i'][j']
    {
      FlattenCellsDistinct(x, i, j, i', j');
    }
  }

  function Leaves(xs: seq<real>): (r: Arena)
    ensures |r| == |xs|
  {
    seq(|xs|, k requires 0 <= k < |xs| => Value(xs[k], 0.0, Leaf))
  }

  /**
   * Every `*Value` the program has allocated.  The operations below are the
   * methods of Go's `Value`; they append the nodes they build and leave all
   * existing nodes as they were.
   */
  class Graph {
    /** The math package the operations call. */
    const math: Libm
    /** All nodes, in order of allocation. */
    var nodes: Arena

    ghost predicate Valid()
      reads this
    {
      WellFormed(nodes)
    }

    constructor (math: Libm)
      ensures Valid() && this.math == math && nodes == []
    {
      this.math := math;
      nodes := [];
    }

    /** NewValue: a node with `Grad` 0 built by `op` from existing nodes. */
    method NewValue(data: real, op: Op) returns (v: nat)
      requires Valid() && Below(op, |nodes|)
      modifies this
      ensures Valid() && v == |old(nodes)|
      ensures nodes == old(nodes) + [Value(data, 0.0, op)]
    {
      v := |nodes|;
      nodes := nodes + [Value(data, 0.0, op)];
    }

    /** NewLeafValue: a node with no children, whose rule changes nothing. */
    method NewLeafValue(data: real) returns (v: nat)
      requires Valid()
      modifies this
      ensures Valid() && v == |old(nodes)|
      ensures nodes == old(nodes) + [Value(data, 0.0, Leaf)]
      ensures Children(nodes[v].op) == [] && forall n :: Delta(math, nodes, v, n) == 0.0
    {
      v := NewValue(data, Leaf);
    }

    /** MatrixToValues: one fresh leaf per cell, in row-major order, in a matrix of the same shape. */
    method MatrixToValues(x: seq<seq<real>>) returns (out: seq<seq<nat>>)
      requires Valid()
      modifies this
      ensures Valid()
      ensures nodes == old(nodes) + Leaves(Flatten(x))
      ensures |out| == |x| && forall i :: 0 <= i < |x| ==> |out[i]| == |x[i]|
      ensures forall i, j :: 0 <= i < |x| && 0 <= j < |x[i]| ==> out[i][j] == |old(nodes)| + |Flatten(x[..i])| + j
      ensures forall i, j :: 0 <= i < |x| && 0 <= j < |x[i]| ==>
        |old(nodes)| <= out[i][j] < |nodes| && nodes[out[i][j]] == Value(x[i][j], 0.0, Leaf)
      ensures forall i, j, i', j' :: 0 <= i < |x| && 0 <= j < |x[i]| && 0 <= i' < |x| && 0 <= j' < |x[i']| && (i, j) != (i', j') ==>
        out[i][j] != out[i'][j']
    {
      ghost var base := |nodes|;
      out := [];
      for i := 0 to |x|
        invariant Valid()
        invariant nodes == old(nodes) + Leaves(Flatten(x[..i]))
        invariant |out| == i && forall r :: 0 <= r < i ==> |out[r]| == |x[r]|
        invariant forall r, j :: 0 <= r < i && 0 <= j < |x[r]| ==> out[r][j] == base + |Flatten(x[..r])| + j
      {
        var row: seq<nat> := [];
        for j := 0 to |x[i]|
          invariant Valid()
          invariant nodes == old(nodes) + Leaves(Flatten(x[..i]) + x[i][..j])
          invariant |row| == j && forall k :: 0 <= k < j ==> row[k] == base + |Flatten(x[..i])| + k
        {
          var v := NewLeafValue(x[i][j]);
          row := row + [v];
          LeavesSnoc(Flatten(x[..i]), x[i], j);
        }
        assert x[i][..|x[i]|] == x[i];
        FlattenSnoc(x, i);
        out := out + [row];
      }
      assert x[..|x|] == x;
      MatrixCells(old(nodes), x, out);
    }

    /** The type switch of Add and Mul: a literal operand becomes a fresh leaf. */
    method Lift(other: Operand) returns (o: nat)
      requires Valid() && OperandIn(nodes, other)
      modifies this
      ensures Valid() && nodes == Lifted(old(nodes), other) && o == LiftedIndex(old(nodes), other)
      ensures o < |nodes|
    {
      match other
      case Node(id) =>
        o := id;
      case Num(x) =>
        o := NewLeafValue(x);
    }

    /** v.Add(other): a node holding the sum, with children [v, other]. */
    method Add(v: nat, other: Operand) returns (out: nat)
      requires Valid() && v < |nodes| && OperandIn(nodes, other)
      modifies this
      ensures Valid()
      ensures var h, o := Lifted(old(nodes), other), LiftedIndex(old(nodes), other);
        out == |h| && nodes == h + [Value(h[v].data + h[o].data, 0.0, Op.Add(v, o))]
    {
      var o := Lift(other);
      out := NewValue(nodes[v].data + nodes[o].data, Op.Add(v, o));
    }

    /** v.Mul(other): a node holding the product, with children [v, other]. */
    method Mul(v: nat, other: Operand) returns (out: nat)
      requires Valid() && v < |nodes| && OperandIn(nodes, other)
      modifies this
      ensures Valid()
      ensures out == |Lifted(old(nodes), other)| && |nodes| == out + 1 && nodes[..out] == Lifted(old(nodes), other)
      ensures var o := LiftedIndex(old(nodes), other); nodes[out] == Value(nodes[v].data * nodes[o].data, 0.0, Op.Mul(v, o))
    {
      var o := Lift(other);
      ghost var h := nodes;
      var x, y := nodes[v].data, nodes[o].data;
      out := NewValue(x * y, Op.Mul(v, o));
      assert nodes[..out] == h;
    }

    /** v.Neg(): v.Mul(-1.0), whose Data is -v.Data. */
    method Neg(v: nat) returns (out: nat)
      requires Valid() && v < |nodes|
      modifies this
      ensures Valid() && out == |old(nodes)| + 1
      ensures nodes == old(nodes) + [Value(-1.0, 0.0, Leaf), Value(old(nodes)[v].data * -1.0, 0.0, Op.Mul(v, |old(nodes)|))]
      ensures nodes[out].data == -old(nodes)[v].data
    {
      out := Mul(v, Num(-1.0));
    }

    /** v.Pow(p): a node holding math.Pow(v.Data, p). */
    method Pow(v: nat, p: real) returns (out: nat)
      requires Valid() && v < |nodes|
      modifies this
      ensures Valid() && out == |old(nodes)|
      ensures nodes == old(nodes) + [Value(Power(math, old(nodes)[v].data, p), 0.0, Op.Pow(v, p))]
    {
      out := NewValue(Power(math, nodes[v].data, p), Op.Pow(v, p));
    }

    /** v.Log(): the clamped natural log of v.Data. */
    method Log(v: nat) returns (out: nat)
      requires Valid() && v < |nodes|
      modifies this
      ensures Valid() && out == |old(nodes)|
      ensures nodes == old(nodes) + [Value(ClampedLog(math, old(nodes)[v].data), 0.0, Op.Log(v))]
    {
      out := NewValue(ClampedLog(math, nodes[v].data), Op.Log(v));
    }

    /** v.ReLU(): v.Data when it is positive, 0 otherwise. */
    method ReLU(v: nat) returns (out: nat)
      requires Valid() && v < |nodes|
      modifies this
      ensures Valid() && out == |old(nodes)|
      ensures nodes == old(nodes) + [Value(Relu(old(nodes)[v].data), 0.0, Op.ReLU(v))]
    {
      var outData: real;
      if nodes[v].data <= 0.0 {
        outData := 0.0;
      } else {
        outData := nodes[v].data;
      }
      out := NewValue(outData, Op.ReLU(v));
    }

    /** v.Tanh(): math.Tanh(v.Data). */
    method Tanh(v: nat) returns (out: nat)
      requires Valid() && v < |nodes|
      modifies this
      ensures Valid() && out == |old(nodes)|
      ensures nodes == old(nodes) + [Value(math.tanh(old(nodes)[v].data), 0.0, Op.Tanh(v))]
    {
      out := NewValue(math.tanh(nodes[v].data), Op.Tanh(v));
    }

    /** v.Sigmoid(): 1 / (1 + math.Exp(-v.Data)). */
    method Sigmoid(v: nat) returns (out: nat)
      requires Valid() && v < |nodes|
      modifies this
      ensures Valid() && out == |old(nodes)|
      ensures nodes == old(nodes) + [Value(Logistic(math, old(nodes)[v].data), 0.0, Op.Sigmoid(v))]
    {
      out := NewValue(1.0 / (1.0 + math.exp(-nodes[v].data)), Op.Sigmoid(v));
    }

    /** The `backward` closure of node `p`: `Grad +=` on each of its operands. */
    method RunRule(p: nat)
      requires Valid() && p < |nodes|
      modifies this
      ensures nodes == Apply(math, old(nodes), p)
    {
      var out := nodes[p];
      match out.op
      case Leaf =>
        assert nodes == Apply(math, nodes, p);
      case Add(a, b) =>
        ApplyAdd(math, nodes, p, a, b);
        nodes := nodes[a := nodes[a].(grad := nodes[a].grad + out.grad)];
        nodes := nodes[b := nodes[b].(grad := nodes[b].grad + out.grad)];
      case Mul(a, b) =>
        var da, db := out.grad * nodes[b].data, out.grad * nodes[a].data;
        ApplyMul(math, nodes, p, a, b, da, db);
        nodes := nodes[a := nodes[a].(grad := nodes[a].grad + da)];
        nodes := nodes[b := nodes[b].(grad := nodes[b].grad + db)];
      case Pow(a, e) =>
        var d := out.grad * (e * Power(math, nodes[a].data, e - 1.0));
        ApplyPow(math, nodes, p, a, e, d);
        nodes := nodes[a := nodes[a].(grad := nodes[a].grad + d)];
      case Log(a) =>
        var d := LogRuleGrad(out.grad, nodes[a].data);
        ApplyLog(math, nodes, p, a, d);
        nodes := nodes[a := nodes[a].(grad := nodes[a].grad + d)];
      case ReLU(a) =>
        ApplyRelu(math, nodes, p, a);
        if nodes[a].data > 0.0 {
          nodes := nodes[a := nodes[a].(grad := nodes[a].grad + out.grad)];
        }
      case Tanh(a) =>
        var d := (1.0 - Power(math, out.data, 2.0)) * out.grad;
        ApplyTanh(math, nodes, p, a, d);
        nodes := nodes[a := nodes[a].(grad := nodes[a].grad + d)];
      case Sigmoid(a) =>
        var d := out.grad * out.data * (1.0 - out.data);
        ApplySigmoid(math, nodes, p, a, d);
        nodes := nodes[a := nodes[a].(grad := nodes[a].grad + d)];
    }

    /**
     * Backward: overwrite the root's `Grad` with 1, list what the root reaches
     * in topological order, then run every listed node's rule once, from the
     * last listed (the root) down to the first.
     */
    method Backward(root: nat) returns (ghost topo: seq<nat>)
      requires Valid() && root < |nodes|
      modifies this
      ensures Valid()
      ensures IsTopoOrder(old(nodes), root, topo)
      ensures nodes == Rules(math, Seed(old(nodes), root), topo)
    {
      nodes := nodes[root := nodes[root].(grad := 1.0)];
      ghost var seeded := nodes;
      assert seeded == Seed(old(nodes), root);
      var order := BuildTopo(nodes, root);
      TopoOrderSameShape(old(nodes), seeded, root, order);
      var i := |order|;
      while i > 0
        invariant 0 <= i <= |order|
        invariant nodes == Rules(math, seeded, order[i..])
        invariant Valid()
      {
        i := i - 1;
        RunRule(order[i]);
        assert order[i..][1..] == order[i + 1..];
      }
      topo := order;
    }
  }
}
