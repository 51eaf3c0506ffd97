/** Reverse-mode differentiation over a computation graph: `gradients(loss, nodes)`
    walks the topological order of the loss backwards, hands each node's accumulated
    gradient to its op's gradient rule and adds the contributions to the inputs.

    The result is checked against the adjoint of a node, defined independently of any
    traversal order: the seed (one for the loss, zero elsewhere) plus what every
    consumer the loss depends on passes back to the node, given the consumer's own
    adjoint. Gradients are kept as values; the Python code builds them as nodes. */
module Backprop {
  import opened Outcomes
  import opened AutoDiff
  import opened Topology
  import Numbers

  /** The gradient the loss starts with: one for itself, nothing for any other node. */
  function Seed(loss: nat, x: nat): real {
    if x == loss then 1.0 else 0.0
  }

  /** The value a dictionary of gradients holds for `x`, zero when it holds none. */
  function Get(m: map<nat, real>, x: nat): real {
    if x in m then m[x] else 0.0
  }

  /** The backward step of node `c` raises: its rule evaluates `A ** (n - 1)` with
      `A` zero and `n < 1`. */
  predicate GradientFails(g: seq<Node>, c: nat)
    requires WellFormed(g) && c < |g|
  {
    g[c].op.PowByConst? && g[c].op.n < 1 && |g[c].inputs| == 1 && g[g[c].inputs[0]].value == 0.0
  }

  /** The gradient rule of node `c`, given `out`, on the values of its inputs. */
  function Rule(g: seq<Node>, c: nat, out: real): (r: Result<seq<real>>)
    requires WellFormed(g) && c < |g|
    ensures r.Err? <==> GradientFails(g, c)
    ensures r.Ok? ==> |r.value| == |g[c].inputs|
  {
    assert InGraph(g, g[c].inputs) && NodeOk(g, c);
    Gradient(g[c].op, ArgValues(g, g[c].inputs), out)
  }

  /** The sum of the contributions `gs` of the first `j` input slots that hold `x`. */
  function SlotSum(ins: seq<nat>, x: nat, gs: seq<real>, j: nat): real
    requires j <= |ins| == |gs|
  {
    if j == 0 then 0.0 else SlotSum(ins, x, gs, j - 1) + (if ins[j - 1] == x then gs[j - 1] else 0.0)
  }

  /** What node `d`, handed `out`, passes back to node `x`: the contributions of all of
      its input slots that hold `x`. */
  function Share(g: seq<Node>, d: nat, x: nat, out: real): real
    requires WellFormed(g) && d < |g|
  {
    var gs := Rule(g, d, out);
    if gs.Ok? then SlotSum(g[d].inputs, x, gs.value, |g[d].inputs|) else 0.0
  }

  /** The adjoint of node `x`: the seed, plus what every node the loss depends on
      passes back to `x` given its own adjoint. Only later nodes can consume `x`. */
  function Adjoint(g: seq<Node>, loss: nat, x: nat): real
    requires WellFormed(g) && loss < |g| && x < |g|
    decreases |g| - x, 1
  {
    Seed(loss, x) + Collected(g, loss, x, Reach(g, loss), x + 1)
  }

  /** What the nodes of `p` from `d` on pass back to `x`, each given its adjoint. */
  function Collected(g: seq<Node>, loss: nat, x: nat, p: set<nat>, d: nat): real
    requires WellFormed(g) && loss < |g| && x < d <= |g|
    decreases |g| - x, 0, |g| - d
  {
    if d == |g| then 0.0
    else (if d in p then Share(g, d, x, Adjoint(g, loss, d)) else 0.0) + Collected(g, loss, x, p, d + 1)
  }

  // Sums.

  /** Slots that do not hold `x` contribute nothing to it. */
  lemma {:induction false} SlotSumAbsent(ins: seq<nat>, x: nat, gs: seq<real>, j: nat)
    requires j <= |ins| == |gs| && x !in ins[..j]
    ensures SlotSum(ins, x, gs, j) == 0.0
  {
    if j > 0 {
      assert ins[..j - 1] == ins[..j][..j - 1];
      SlotSumAbsent(ins, x, gs, j - 1);
    }
  }

  /** A node passes nothing back to a node that is not one of its inputs. */
  lemma ShareOfNonInput(g: seq<Node>, d: nat, x: nat, out: real)
    requires WellFormed(g) && d < |g| && x !in g[d].inputs
    ensures Share(g, d, x, out) == 0.0
  {
    var ins := g[d].inputs;
    var gs := Rule(g, d, out);
    if gs.Ok? {
      assert ins[..|ins|] == ins;
      SlotSumAbsent(ins, x, gs.value, |ins|);
    }
  }

  /** An empty set of consumers passes nothing back. */
  lemma {:induction false} CollectedEmpty(g: seq<Node>, loss: nat, x: nat, d: nat)
    requires WellFormed(g) && loss < |g| && x < d <= |g|
    ensures Collected(g, loss, x, {}, d) == 0.0
    decreases |g| - d
  {
    if d < |g| {
      CollectedEmpty(g, loss, x, d + 1);
    }
  }

  /** Adding node `c` to the consumers adds what it passes back, when it lies in the
      summed range. */
  lemma {:induction false} CollectedInsert(g: seq<Node>, loss: nat, x: nat, p: set<nat>, c: nat, d: nat)
    requires WellFormed(g) && loss < |g| && x < d <= |g| && c < |g| && c !in p
    ensures Collected(g, loss, x, p + {c}, d)
         == Collected(g, loss, x, p, d) + (if d <= c then Share(g, c, x, Adjoint(g, loss, c)) else 0.0)
    decreases |g| - d
  {
    if d < |g| {
      CollectedInsert(g, loss, x, p, c, d + 1);
    }
  }

  /** Two sets of consumers that differ only in nodes not consuming `x` pass the same
      back to `x`. */
  lemma {:induction false} CollectedAgree(g: seq<Node>, loss: nat, x: nat, p: set<nat>, q: set<nat>, d: nat)
    requires WellFormed(g) && loss < |g| && x < d <= |g|
    requires forall e :: d <= e < |g| && (e in p) != (e in q) ==> x !in g[e].inputs
    ensures Collected(g, loss, x, p, d) == Collected(g, loss, x, q, d)
    decreases |g| - d
  {
    if d < |g| {
      if (d in p) != (d in q) {
        ShareOfNonInput(g, d, x, Adjoint(g, loss, d));
      }
      CollectedAgree(g, loss, x, p, q, d + 1);
    }
  }

  // The adjoint.

  /** The loss has adjoint one: nothing it depends on consumes it. */
  lemma LossAdjointIsOne(g: seq<Node>, loss: nat)
    requires WellFormed(g) && loss < |g|
    ensures Adjoint(g, loss, loss) == 1.0
  {
    ReachBound(g, loss);
    CollectedAgree(g, loss, loss, Reach(g, loss), {}, loss + 1);
    CollectedEmpty(g, loss, loss, loss + 1);
  }

  /** A node the loss does not depend on has adjoint zero: none of its consumers is
      one the loss depends on. */
  lemma UnreachedAdjointIsZero(g: seq<Node>, loss: nat, x: nat)
    requires WellFormed(g) && loss < |g| && x < |g| && x !in Reach(g, loss)
    ensures Adjoint(g, loss, x) == 0.0
  {
    forall e | x + 1 <= e < |g| && e in Reach(g, loss)
      ensures x !in g[e].inputs
    {
      ReachTransitive(g, loss, e);
      if x in g[e].inputs {
        var i :| 0 <= i < |g[e].inputs| && g[e].inputs[i] == x;
        InputsReached(g, e, i);
      }
    }
    CollectedAgree(g, loss, x, Reach(g, loss), {}, x + 1);
    CollectedEmpty(g, loss, x, x + 1);
  }

  /** A product kept whole, so that sums of products of adjoints unfold without
      nonlinear arithmetic. */
  function Scale(a: real, b: real): real {
    a * b
  }

  lemma ScaleDistributes(k: real, a: real, b: real, u: real, v: real)
    requires a == Scale(k, u) && b == Scale(k, v)
    ensures a + b == Scale(k, u + v)
  {
  }

  /** Scaling every contribution scales what the slots holding `x` add up to. */
  lemma {:induction false} SlotSumScales(ins: seq<nat>, x: nat, gs: seq<real>, unit: seq<real>, out: real, j: nat)
    requires j <= |ins| == |gs| == |unit|
    requires forall i :: 0 <= i < |ins| ==> gs[i] == Scale(out, unit[i])
    ensures SlotSum(ins, x, gs, j) == Scale(out, SlotSum(ins, x, unit, j))
  {
    if j > 0 {
      SlotSumScales(ins, x, gs, unit, out, j - 1);
      ScaleDistributes(out, SlotSum(ins, x, gs, j - 1), if ins[j - 1] == x then gs[j - 1] else 0.0,
                       SlotSum(ins, x, unit, j - 1), if ins[j - 1] == x then unit[j - 1] else 0.0);
    }
  }

  /** Every contribution of a node's rule is `out` times its contribution for a unit
      gradient. */
  lemma RuleIsLinear(g: seq<Node>, d: nat, out: real)
    requires WellFormed(g) && d < |g| && !GradientFails(g, d)
    ensures forall i :: 0 <= i < |g[d].inputs| ==>
      Rule(g, d, out).value[i] == Scale(out, Rule(g, d, 1.0).value[i])
  {
    var ins := g[d].inputs;
    assert InGraph(g, ins) && NodeOk(g, d);
    forall i | 0 <= i < |ins|
      ensures Rule(g, d, out).value[i] == Scale(out, Rule(g, d, 1.0).value[i])
    {
      GradientIsLinear(g[d].op, ArgValues(g, ins), out, i);
    }
  }

  /** What a node passes back is linear in the gradient it is handed. */
  lemma ShareIsLinear(g: seq<Node>, d: nat, x: nat, out: real)
    requires WellFormed(g) && d < |g|
    ensures Share(g, d, x, out) == Scale(out, Share(g, d, x, 1.0))
  {
    if !GradientFails(g, d) {
      RuleIsLinear(g, d, out);
      SlotSumScales(g[d].inputs, x, Rule(g, d, out).value, Rule(g, d, 1.0).value, out, |g[d].inputs|);
    }
  }

  /** The chain rule's sum over the nodes the loss depends on, from `d` on: each one's
      adjoint times its local derivative with respect to `x`, which is what it passes
      back for a unit gradient. */
  function ChainSum(g: seq<Node>, loss: nat, x: nat, d: nat): real
    requires WellFormed(g) && loss < |g| && x < d <= |g|
    decreases |g| - d
  {
    if d == |g| then 0.0
    else
      (if d in Reach(g, loss) then Scale(Adjoint(g, loss, d), Share(g, d, x, 1.0)) else 0.0)
      + ChainSum(g, loss, x, d + 1)
  }

  lemma {:induction false} CollectedIsChainSum(g: seq<Node>, loss: nat, x: nat, d: nat)
    requires WellFormed(g) && loss < |g| && x < d <= |g|
    ensures Collected(g, loss, x, Reach(g, loss), d) == ChainSum(g, loss, x, d)
    decreases |g| - d
  {
    if d < |g| {
      var adj := Adjoint(g, loss, d);
      ShareIsLinear(g, d, x, adj);
      CollectedIsChainSum(g, loss, x, d + 1);
      var p := Reach(g, loss);
      assert Collected(g, loss, x, p, d) == (if d in p then Share(g, d, x, adj) else 0.0) + Collected(g, loss, x, p, d + 1);
      assert ChainSum(g, loss, x, d) == (if d in p then Scale(adj, Share(g, d, x, 1.0)) else 0.0) + ChainSum(g, loss, x, d + 1);
      ScaledTerm(Share(g, d, x, adj), adj, Share(g, d, x, 1.0), d in Reach(g, loss),
                 Collected(g, loss, x, Reach(g, loss), d + 1),
                 Collected(g, loss, x, Reach(g, loss), d), ChainSum(g, loss, x, d));
    }
  }

  lemma ScaledTerm(s: real, adj: real, s1: real, member: bool, rest: real, total: real, chain: real)
    requires s == Scale(adj, s1)
    requires total == (if member then s else 0.0) + rest
    requires chain == (if member then Scale(adj, s1) else 0.0) + rest
    ensures total == chain
  {
  }

  /** The chain rule: the adjoint of `x` is its seed plus, over the later nodes the
      loss depends on, their adjoints times their local derivatives with respect to
      `x`. */
  lemma ChainRule(g: seq<Node>, loss: nat, x: nat)
    requires WellFormed(g) && loss < |g| && x < |g|
    ensures Adjoint(g, loss, x) == Seed(loss, x) + ChainSum(g, loss, x, x + 1)
  {
    CollectedIsChainSum(g, loss, x, x + 1);
  }

  /** The graph of `a * b` at `a = 3`, `b = 5`. */
  const ProductGraph := [Node(Placeholder, [], 3.0), Node(Placeholder, [], 5.0), Node(Mul, [0, 1], 15.0)]

  /** The graph of `x * x` at `x = 3`, whose last node has the same input twice. */
  const SquareGraph := [Node(Placeholder, [], 3.0), Node(Mul, [0, 0], 9.0)]

  /** The graph of `x / y` at `x = 2`, `y = 3`. */
  const QuotientGraph := [Node(Placeholder, [], 2.0), Node(Placeholder, [], 3.0), Node(Div, [0, 1], 2.0 / 3.0)]

  /** The graph of `a + b` at `a = 2`, `b = 1`. */
  const SumGraph := [Node(Placeholder, [], 2.0), Node(Placeholder, [], 1.0), Node(Add, [0, 1], 3.0)]

  /** The graph of `a ** 2 + b / 6` at `a = 2`, `b = 1`. */
  const PolynomialGraph := [Node(Placeholder, [], 2.0), Node(Placeholder, [], 1.0),
    Node(PowByConst(2), [0], 4.0), Node(DivByConst(6.0), [1], 1.0 / 6.0),
    Node(Add, [2, 3], 4.0 + 1.0 / 6.0)]

  /** The partial derivatives of `a + b` are both 1. */
  lemma SumAdjoints()
    ensures WellFormed(SumGraph)
    ensures Adjoint(SumGraph, 2, 0) == 1.0 && Adjoint(SumGraph, 2, 1) == 1.0
  {
    var g := SumGraph;
    assert ArgValues(g, g[2].inputs) == [2.0, 1.0];
    assert NodeOk(g, 2);
    assert WellFormed(g);
    assert Reach(g, 2) == {0, 1, 2};
    LossAdjointIsOne(g, 2);
    assert Share(g, 1, 0, Adjoint(g, 2, 1)) == 0.0;
  }

  /** The graph of `a ** 2 + b / 6` holds the values its ops compute. */
  lemma PolynomialWellFormed()
    ensures WellFormed(PolynomialGraph)
    ensures Reach(PolynomialGraph, 4) == {0, 1, 2, 3, 4}
  {
    var g := PolynomialGraph;
    Numbers.IntPowUnitExponents(2.0);
    assert ArgValues(g, g[2].inputs) == [2.0];
    assert ArgValues(g, g[3].inputs) == [1.0];
    assert ArgValues(g, g[4].inputs) == [4.0, 1.0 / 6.0];
    assert NodeOk(g, 2) && NodeOk(g, 3) && NodeOk(g, 4);
  }

  /** The partial derivatives of `a ** 2 + b / 6` are `2 a` and `1 / 6`. */
  lemma PolynomialAdjoints()
    ensures WellFormed(PolynomialGraph)
    ensures Adjoint(PolynomialGraph, 4, 0) == 4.0 && Adjoint(PolynomialGraph, 4, 1) == 1.0 / 6.0
  {
    var g := PolynomialGraph;
    PolynomialWellFormed();
    var p := Reach(g, 4);
    LossAdjointIsOne(g, 4);
    assert Rule(g, 4, 1.0) == Ok([1.0, 1.0]);
    assert Share(g, 4, 3, 1.0) == 1.0 && Share(g, 4, 2, 1.0) == 1.0;
    assert Share(g, 4, 1, 1.0) == 0.0 && Share(g, 4, 0, 1.0) == 0.0;
    assert Adjoint(g, 4, 3) == Collected(g, 4, 3, p, 4) == 1.0;
    assert Share(g, 3, 2, 1.0) == 0.0;
    assert Adjoint(g, 4, 2) == Collected(g, 4, 2, p, 3) == 1.0;
    assert Rule(g, 3, 1.0) == Ok([1.0 / 6.0]);
    assert Share(g, 3, 1, 1.0) == 1.0 / 6.0 && Share(g, 2, 1, 1.0) == 0.0;
    assert Adjoint(g, 4, 1) == Collected(g, 4, 1, p, 2) == 1.0 / 6.0;
    Numbers.IntPowUnitExponents(2.0);
    assert Rule(g, 2, 1.0) == Ok([4.0]);
    assert Share(g, 2, 0, 1.0) == 4.0 && Share(g, 3, 0, 1.0) == 0.0 && Share(g, 1, 0, 1.0 / 6.0) == 0.0;
    assert Adjoint(g, 4, 0) == Collected(g, 4, 0, p, 1) == 4.0;
  }

  /** The partial derivatives of `a * b` are `b` and `a`. */
  lemma ProductAdjoints()
    ensures WellFormed(ProductGraph)
    ensures Adjoint(ProductGraph, 2, 0) == 5.0 && Adjoint(ProductGraph, 2, 1) == 3.0
  {
    var g := ProductGraph;
    assert ArgValues(g, g[2].inputs) == [3.0, 5.0];
    assert NodeOk(g, 2);
    assert WellFormed(g);
    assert Reach(g, 2) == {0, 1, 2};
    LossAdjointIsOne(g, 2);
    assert Share(g, 1, 0, Adjoint(g, 2, 1)) == 0.0;
  }

  /** The derivative of `x * x` is `2 x`: both input slots pass back to the same node. */
  lemma SquareAdjoint()
    ensures WellFormed(SquareGraph)
    ensures Adjoint(SquareGraph, 1, 0) == 6.0
  {
    var g := SquareGraph;
    assert ArgValues(g, g[1].inputs) == [3.0, 3.0];
    assert NodeOk(g, 1);
    assert WellFormed(g);
    assert Reach(g, 1) == {0, 1};
    LossAdjointIsOne(g, 1);
  }

  /** The partial derivatives of `x / y` are `1 / y` and `-x / y^2`. */
  lemma QuotientAdjoints()
    ensures WellFormed(QuotientGraph)
    ensures Adjoint(QuotientGraph, 2, 0) == 1.0 / 3.0 && Adjoint(QuotientGraph, 2, 1) == -2.0 / 9.0
  {
    var g := QuotientGraph;
    assert ArgValues(g, g[2].inputs) == [2.0, 3.0];
    assert NodeOk(g, 2);
    assert WellFormed(g);
    assert Reach(g, 2) == {0, 1, 2};
    LossAdjointIsOne(g, 2);
    assert Share(g, 1, 0, Adjoint(g, 2, 1)) == 0.0;
    Numbers.IntPowUnitExponents(3.0);
  }

  // `DivOp.gradient` as written.

  /** An output gradient as the Python code holds it: a float, or a node built by an
      earlier gradient rule, with its value. */
  datatype Grad = Float(v: real) | GradNode(v: real)

  /** `DivOp.gradient` as written, for inputs of values `a` and `b`. With a float
      output gradient `o`, `o / node_B` falls back on the node's reflected division,
      which is its forward division, giving a node of value `b / o`; with a node,
      `-output_grad` raises, nodes having no negation. The second contribution is
      the intended `-o * a / b ** 2`. */
  function DivGradientAsWritten(a: real, b: real, out: Grad): (r: Result<seq<Grad>>)
    requires b != 0.0
    ensures out.GradNode? ==> r == Err(TypeError)
    ensures out.Float? ==> (r.Err? <==> out.v == 0.0)
    ensures r.Ok? ==> |r.value| == 2 && r.value[0].GradNode? && r.value[0].v * out.v == b
  {
    match out
    case Float(o) =>
      if o == 0.0 then Err(ZeroDivisionError)
      else Ok([GradNode(b / o), GradNode(-o * a / (b * b))])
    case GradNode(_) => Err(TypeError)
  }

  /** For `x / y` at `x = 2`, `y = 3` and a unit output gradient, the contribution to
      `x` as written is `3` where the derivative is `1 / 3`; the contribution to `y`
      is right. Once the output gradient is a node, the rule raises. */
  lemma DivGradientAsWrittenIsReciprocal()
    ensures DivGradientAsWritten(2.0, 3.0, Float(1.0)).Ok?
    ensures DivGradientAsWritten(2.0, 3.0, Float(1.0)).value[0].v == 3.0
    ensures DivGradientAsWritten(2.0, 3.0, Float(1.0)).value[1].v == -2.0 / 9.0
    ensures Adjoint(QuotientGraph, 2, 0) == 1.0 / 3.0 && Adjoint(QuotientGraph, 2, 1) == -2.0 / 9.0
    ensures DivGradientAsWritten(2.0, 3.0, GradNode(1.0)) == Err(TypeError)
  {
    QuotientAdjoints();
  }

  // The backward pass.

  /** A node after `order[k]` in a topological order that consumes it comes after it. */
  lemma ConsumerLater(g: seq<Node>, order: seq<nat>, k: nat, e: nat, i: nat)
    requires TopoOrdered(g, order) && Distinct(order) && k < |order| && e in order
    requires e < |g| && i < |g[e].inputs| && g[e].inputs[i] == order[k]
    ensures e in order[k + 1..]
  {
    var j :| 0 <= j < |order| && order[j] == e;
    assert order[k] in order[..j];
    var l :| 0 <= l < j && order[l] == order[k];
    assert l == k;
    assert order[j] == order[k + 1..][j - k - 1];
  }

  /** Every consumer of `order[k]` the loss depends on comes after it in the order, and
      everything after it is something the loss depends on: so a node in exactly one
      of the two sets does not consume `order[k]`. */
  lemma ConsumersLater(g: seq<Node>, loss: nat, order: seq<nat>, k: nat)
    requires WellFormed(g) && loss < |g| && k < |order|
    requires TopoOrdered(g, order) && Distinct(order) && Elems(order) == Reach(g, loss)
    ensures forall e :: order[k] + 1 <= e < |g| && (e in Elems(order[k + 1..])) != (e in Reach(g, loss)) ==>
      order[k] !in g[e].inputs
  {
    assert Elems(order[k + 1..]) <= Elems(order);
    forall e | 0 <= e < |g| && e in Reach(g, loss) && order[k] in g[e].inputs
      ensures e in Elems(order[k + 1..])
    {
      var i :| 0 <= i < |g[e].inputs| && g[e].inputs[i] == order[k];
      ConsumerLater(g, order, k, e, i);
    }
  }

  /** When the pass reaches `order[k]`, everything in the order after it holds all of
      its consumers the loss depends on, so its gradient is complete. */
  lemma ConsumersDone(g: seq<Node>, loss: nat, order: seq<nat>, k: nat)
    requires WellFormed(g) && loss < |g| && k < |order|
    requires TopoOrdered(g, order) && Distinct(order) && Elems(order) == Reach(g, loss)
    ensures order[k] < |g|
    ensures Collected(g, loss, order[k], Elems(order[k + 1..]), order[k] + 1) == Adjoint(g, loss, order[k]) - Seed(loss, order[k])
  {
    var c := order[k];
    assert c in Elems(order);
    ReachBound(g, loss);
    ConsumersLater(g, loss, order, k);
    CollectedAgree(g, loss, c, Elems(order[k + 1..]), Reach(g, loss), c + 1);
  }

  /** The gradient of `order[k]` is in the dictionary when the pass reaches it: it is
      the loss, or an input of a consumer handled before. */
  lemma GradientPresent(g: seq<Node>, loss: nat, order: seq<nat>, k: nat, keys: set<nat>)
    requires WellFormed(g) && loss < |g| && k < |order| && loss in keys
    requires TopoOrdered(g, order) && Distinct(order) && Elems(order) == Reach(g, loss)
    requires forall e, i :: e in order[k + 1..] && 0 <= i < |g[e].inputs| ==> g[e].inputs[i] in keys
    ensures order[k] in keys
  {
    var c := order[k];
    if c != loss {
      ReachParent(g, loss, c);
      var e, i :| e in Reach(g, loss) && e < |g| && 0 <= i < |g[e].inputs| && g[e].inputs[i] == c;
      ConsumerLater(g, order, k, e, i);
    }
  }

  /** So the gradient the pass reads for `order[k]` is its adjoint. */
  lemma GradientComplete(g: seq<Node>, loss: nat, order: seq<nat>, k: nat, grads: map<nat, real>)
    requires WellFormed(g) && loss < |g| && k < |order|
    requires TopoOrdered(g, order) && Distinct(order) && Elems(order) == Reach(g, loss)
    requires forall x :: 0 <= x < |g| ==>
      Get(grads, x) == Seed(loss, x) + Collected(g, loss, x, Elems(order[k + 1..]), x + 1)
    ensures order[k] < |g| && Get(grads, order[k]) == Adjoint(g, loss, order[k])
  {
    ConsumersDone(g, loss, order, k);
  }

  /** Handing node `c` its adjoint and adding its contributions to the gradient of `x`
      extends what `x` has collected by `c`. */
  lemma PassedBack(g: seq<Node>, loss: nat, c: nat, x: nat, p: set<nat>, gs: seq<real>, before: real, after: real)
    requires WellFormed(g) && loss < |g| && c < |g| && x < |g| && c !in p
    requires Rule(g, c, Adjoint(g, loss, c)).Ok? && gs == Rule(g, c, Adjoint(g, loss, c)).value
    requires before == Seed(loss, x) + Collected(g, loss, x, p, x + 1)
    requires after == before + SlotSum(g[c].inputs, x, gs, |g[c].inputs|)
    ensures after == Seed(loss, x) + Collected(g, loss, x, p + {c}, x + 1)
  {
    CollectedInsert(g, loss, x, p, c, x + 1);
    if c <= x {
      assert g[c].inputs[..|g[c].inputs|] == g[c].inputs;
      SlotSumAbsent(g[c].inputs, x, gs, |g[c].inputs|);
    }
  }

  /** The suffix from `k` is its head and the suffix after it, which (the order having
      no repeats) does not hold the head. */
  lemma SplitHead(order: seq<nat>, k: nat)
    requires Distinct(order) && k < |order|
    ensures Elems(order[k..]) == Elems(order[k + 1..]) + {order[k]}
    ensures order[k] !in Elems(order[k + 1..])
  {
    assert order[k..] == [order[k]] + order[k + 1..];
    var rest := order[k + 1..];
    forall j | 0 <= j < |rest|
      ensures rest[j] != order[k]
    {
      assert rest[j] == order[k + 1 + j];
    }
  }

  /** Once node `order[k]` has passed back what its adjoint gives, every node has
      collected from `order[k..]`. */
  lemma Handled(g: seq<Node>, loss: nat, order: seq<nat>, k: nat,
                before: map<nat, real>, after: map<nat, real>, gs: seq<real>)
    requires WellFormed(g) && loss < |g| && k < |order|
    requires TopoOrdered(g, order) && Distinct(order) && Elems(order) == Reach(g, loss)
    requires forall x :: 0 <= x < |g| ==>
      Get(before, x) == Seed(loss, x) + Collected(g, loss, x, Elems(order[k + 1..]), x + 1)
    requires Rule(g, order[k], Adjoint(g, loss, order[k])).Ok?
    requires gs == Rule(g, order[k], Adjoint(g, loss, order[k])).value
    requires forall x :: 0 <= x < |g| ==>
      Get(after, x) == Get(before, x) + SlotSum(g[order[k]].inputs, x, gs, |g[order[k]].inputs|)
    ensures forall x :: 0 <= x < |g| ==>
      Get(after, x) == Seed(loss, x) + Collected(g, loss, x, Elems(order[k..]), x + 1)
  {
    var c := order[k];
    SplitHead(order, k);
    forall x | 0 <= x < |g|
      ensures Get(after, x) == Seed(loss, x) + Collected(g, loss, x, Elems(order[k..]), x + 1)
    {
      PassedBack(g, loss, c, x, Elems(order[k + 1..]), gs, Get(before, x), Get(after, x));
    }
  }

  lemma SuffixMembers(s: seq<nat>, k: nat)
    requires k < |s|
    ensures forall e :: e in s[k..] <==> e == s[k] || e in s[k + 1..]
  {
    assert s[k..] == [s[k]] + s[k + 1..];
  }

  /** Adding slot `i`'s contribution to the entry of the node it holds extends every
      node's sum by that slot, and the keys by that node. */
  lemma SlotAdded(ins: seq<nat>, gs: seq<real>, i: nat, n: nat,
                  base: map<nat, real>, m: map<nat, real>, m': map<nat, real>)
    requires i < |ins| == |gs|
    requires forall x :: x in m' <==> x in m || x == ins[i]
    requires m'[ins[i]] == Get(m, ins[i]) + gs[i]
    requires forall x :: x in m && x != ins[i] ==> m'[x] == m[x]
    requires forall x :: 0 <= x < n ==> Get(m, x) == Get(base, x) + SlotSum(ins, x, gs, i)
    requires m.Keys == base.Keys + Elems(ins[..i])
    ensures forall x :: 0 <= x < n ==> Get(m', x) == Get(base, x) + SlotSum(ins, x, gs, i + 1)
    ensures m'.Keys == base.Keys + Elems(ins[..i + 1])
  {
    assert ins[..i + 1] == ins[..i] + [ins[i]];
  }

  /** The inner loop of `gradients`: input slot `i` of node `c` adds `gs[i]` to the
      gradient of the node it holds, which starts the entry when there is none. */
  method AddContributions(g: seq<Node>, c: nat, gs: seq<real>, grads: map<nat, real>)
    returns (grads': map<nat, real>)
    requires WellFormed(g) && c < |g| && |gs| == |g[c].inputs|
    requires forall x :: x in grads ==> x < |g|
    ensures grads'.Keys == grads.Keys + Elems(g[c].inputs)
    ensures forall x :: x in grads' ==> x < |g|
    ensures forall x :: 0 <= x < |g| ==>
      Get(grads', x) == Get(grads, x) + SlotSum(g[c].inputs, x, gs, |g[c].inputs|)
  {
    var ins := g[c].inputs;
    assert InGraph(g, ins);
    grads' := grads;
    var i := 0;
    while i < |ins|
      invariant 0 <= i <= |ins|
      invariant grads'.Keys == grads.Keys + Elems(ins[..i])
      invariant forall x :: x in grads' ==> x < |g|
      invariant forall x :: 0 <= x < |g| ==> Get(grads', x) == Get(grads, x) + SlotSum(ins, x, gs, i)
    {
      var x := ins[i];
      ghost var prev := grads';
      if x !in grads' {
        grads' := grads'[x := gs[i]];
      } else {
        grads' := grads'[x := grads'[x] + gs[i]];
      }
      SlotAdded(ins, gs, i, |g|, grads, prev, grads');
      i := i + 1;
    }
    assert ins[..i] == ins;
  }

  /** The state of the pass once it has handled `order[k..]`: every node holds the
      seed plus what those nodes passed back, the inputs of those nodes have entries,
      and none of them raised. */
  ghost predicate Backpropagated(g: seq<Node>, loss: nat, order: seq<nat>, k: nat, grads: map<nat, real>)
    requires WellFormed(g) && loss < |g| && k <= |order|
  {
    && loss in grads && (forall x :: x in grads ==> x < |g|)
    && (forall x :: 0 <= x < |g| ==>
          Get(grads, x) == Seed(loss, x) + Collected(g, loss, x, Elems(order[k..]), x + 1))
    && (forall e :: e in order[k..] ==> e < |g| && !GradientFails(g, e))
    && (forall e, i :: e in order[k..] && 0 <= i < |g[e].inputs| ==> g[e].inputs[i] in grads)
  }

  /** Before the pass handles any node, only the loss holds its seed. */
  lemma NothingPropagated(g: seq<Node>, loss: nat, order: seq<nat>)
    requires WellFormed(g) && loss < |g|
    ensures Backpropagated(g, loss, order, |order|, map[loss := 1.0])
  {
    assert order[|order|..] == [];
    forall x | 0 <= x < |g|
      ensures Get(map[loss := 1.0], x) == Seed(loss, x) + Collected(g, loss, x, Elems(order[|order|..]), x + 1)
    {
      assert Elems(order[|order|..]) == {};
      CollectedEmpty(g, loss, x, x + 1);
    }
  }

  /** When the pass reaches `order[k]`, its gradient is in the dictionary and is its
      adjoint. */
  lemma NextReady(g: seq<Node>, loss: nat, order: seq<nat>, k: nat, grads: map<nat, real>)
    requires WellFormed(g) && loss < |g| && k < |order|
    requires TopoOrdered(g, order) && Distinct(order) && Elems(order) == Reach(g, loss)
    requires Backpropagated(g, loss, order, k + 1, grads)
    ensures order[k] < |g| && order[k] in grads && grads[order[k]] == Adjoint(g, loss, order[k])
  {
    GradientPresent(g, loss, order, k, grads.Keys);
    GradientComplete(g, loss, order, k, grads);
  }

  /** Adding the contributions of `order[k]`, handed its adjoint, extends the handled
      part of the order by it. */
  lemma NextHandled(g: seq<Node>, loss: nat, order: seq<nat>, k: nat,
                    before: map<nat, real>, after: map<nat, real>, gs: seq<real>)
    requires WellFormed(g) && loss < |g| && k < |order|
    requires TopoOrdered(g, order) && Distinct(order) && Elems(order) == Reach(g, loss)
    requires Backpropagated(g, loss, order, k + 1, before)
    requires Rule(g, order[k], Adjoint(g, loss, order[k])).Ok?
    requires gs == Rule(g, order[k], Adjoint(g, loss, order[k])).value
    requires after.Keys == before.Keys + Elems(g[order[k]].inputs)
    requires forall x :: x in after ==> x < |g|
    requires forall x :: 0 <= x < |g| ==>
      Get(after, x) == Get(before, x) + SlotSum(g[order[k]].inputs, x, gs, |g[order[k]].inputs|)
    ensures Backpropagated(g, loss, order, k, after)
  {
    Handled(g, loss, order, k, before, after, gs);
    SuffixMembers(order, k);
  }

  /** `gradients(loss_node, nodes)`: each of `xs` mapped to its adjoint, unless the
      backward step of a node the loss depends on raises. */
  method Gradients(g: seq<Node>, loss: nat, xs: seq<nat>) returns (r: Result<map<nat, real>>)
    requires WellFormed(g) && loss < |g| && InGraph(g, xs)
    ensures r.Err? <==> exists c :: c in Reach(g, loss) && c < |g| && GradientFails(g, c)
    ensures r.Err? ==> r.error == ZeroDivisionError
    ensures r.Ok? ==> r.value.Keys == Elems(xs)
    ensures r.Ok? ==> forall x :: x in r.value ==> x < |g| && r.value[x] == Adjoint(g, loss, x)
  {
    var order := FindTopoSort(g, [loss]);
    ReachAllOfOne(g, loss);
    var grads: map<nat, real> := map[loss := 1.0];
    NothingPropagated(g, loss, order);
    var k := |order|;
    while k > 0
      invariant 0 <= k <= |order|
      invariant Backpropagated(g, loss, order, k, grads)
    {
      k := k - 1;
      var c := order[k];
      NextReady(g, loss, order, k, grads);
      var out := grads[c];
      var gs := Rule(g, c, out);
      if gs.Err? {
        return Err(gs.error);
      }
      ghost var before := grads;
      grads := AddContributions(g, c, gs.value, grads);
      NextHandled(g, loss, order, k, before, grads, gs.value);
    }
    Finished(g, loss, order, grads);
    r := Ok(map x | x in Elems(xs) :: Get(grads, x));
  }

  /** Once the whole order is handled, every node holds its adjoint and no node the
      loss depends on raised. */
  lemma Finished(g: seq<Node>, loss: nat, order: seq<nat>, grads: map<nat, real>)
    requires WellFormed(g) && loss < |g| && Elems(order) == Reach(g, loss)
    requires Backpropagated(g, loss, order, 0, grads)
    ensures forall x :: 0 <= x < |g| ==> Get(grads, x) == Adjoint(g, loss, x)
    ensures forall c :: c in Reach(g, loss) && c < |g| ==> !GradientFails(g, c)
  {
    assert order[0..] == order;
  }
}
