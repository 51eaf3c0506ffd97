/** The reverse-mode differentiation graph: nodes created eagerly by operations, each
    with its value computed at once, the local gradient rule of every operation, and
    the post-order depth-first topological sort.

    The graph is an arena: node `k` is `nodes[k]`, and its inputs are indices of nodes
    that existed when it was created, hence smaller than `k`. Node identity in the
    source is object identity; here it is the index. */
module AutoDiff {
  import opened Outcomes
  import opened Numbers

  /** The operation that created a node, with the constant of the by-constant ops.
      `RDivByConst(c)` is the node `c / x` that reflected division evidently intends. */
  datatype Op =
    | Placeholder
    | Add
    | AddByConst(c: real)
    | Mul
    | MulByConst(c: real)
    | Div
    | DivByConst(c: real)
    | PowByConst(n: int)
    | RDivByConst(c: real)

  /** The number of input nodes of each operation; constants are not inputs. */
  function Arity(op: Op): nat {
    match op
    case Placeholder => 0
    case Add => 2
    case Mul => 2
    case Div => 2
    case _ => 1
  }

  datatype Node = Node(op: Op, inputs: seq<nat>, value: real)

  /** Whether evaluating `op` on `args` divides by zero: a zero divisor, or `0 ** n`
      with `n < 0`. */
  predicate DividesByZero(op: Op, args: seq<real>)
    requires |args| == Arity(op)
  {
    match op
    case Div => args[1] == 0.0
    case DivByConst(c) => c == 0.0
    case PowByConst(n) => args[0] == 0.0 && n < 0
    case RDivByConst(_) => args[0] == 0.0
    case _ => false
  }

  /** The value an op's `__call__` computes from the input values. */
  function Forward(op: Op, args: seq<real>): (r: Result<real>)
    requires !op.Placeholder? && |args| == Arity(op)
    ensures r.Err? <==> DividesByZero(op, args)
    ensures r.Err? ==> r.error == ZeroDivisionError
  {
    match op
    case Add => Ok(args[0] + args[1])
    case AddByConst(c) => Ok(args[0] + c)
    case Mul => Ok(Product(args[0], args[1]))
    case MulByConst(c) => Ok(Product(args[0], c))
    case Div => if args[1] == 0.0 then Err(ZeroDivisionError) else Ok(Ratio(args[0], args[1]))
    case DivByConst(c) => if c == 0.0 then Err(ZeroDivisionError) else Ok(Ratio(args[0], c))
    case PowByConst(n) =>
      if args[0] == 0.0 && n < 0 then Err(ZeroDivisionError) else Ok(IntPow(args[0], n))
    case RDivByConst(c) => if args[0] == 0.0 then Err(ZeroDivisionError) else Ok(Ratio(c, args[0]))
  }

  // The products and quotients of `Forward` and `Gradient` each sit in a function of
  // their own, so that unfolding either for an unknown op does not hand the solver
  // every op's arithmetic at once.

  function Product(a: real, b: real): real {
    a * b
  }

  function Ratio(a: real, b: real): real
    requires b != 0.0
  {
    a / b
  }

  /** An op's `gradient(node, output_grad)`: one contribution per input node. The
      power rule evaluates `A ** (n - 1)`, which divides by zero when `A` is zero and
      `n < 1`. A placeholder has no inputs and so contributes nothing. */
  function Gradient(op: Op, args: seq<real>, out: real): (r: Result<seq<real>>)
    requires |args| == Arity(op)
    requires !op.Placeholder? ==> !DividesByZero(op, args)
    ensures r.Ok? <==> !(op.PowByConst? && op.n < 1 && args[0] == 0.0)
    ensures r.Err? ==> r.error == ZeroDivisionError
    ensures r.Ok? ==> |r.value| == |args|
  {
    match op
    case Placeholder => Ok([])
    case Add => Ok([out, out])
    case AddByConst(_) => Ok([out])
    case Mul => Ok(MulRule(args[0], args[1], out))
    case MulByConst(c) => Ok([ScaleRule(c, out)])
    case Div => Ok(DivRule(args[0], args[1], out))
    case DivByConst(c) => Ok([ReciprocalRule(c, out)])
    case PowByConst(n) =>
      if args[0] == 0.0 && n - 1 < 0 then Err(ZeroDivisionError)
      else Ok([PowerRule(args[0], n, out)])
    case RDivByConst(c) => Ok([RDivRule(c, args[0], out)])
  }

  /** `MulOp.gradient`: `[output_grad * B, output_grad * A]`. */
  function MulRule(a: real, b: real, out: real): seq<real> {
    [out * b, out * a]
  }

  /** `MulByConstOp.gradient`: `const_attr * output_grad`. */
  function ScaleRule(c: real, out: real): real {
    c * out
  }

  /** The evidently intended `DivOp.gradient`: `[output_grad / B, -output_grad * A / B ** 2]`.
      As written, the first contribution is computed otherwise; see
      `Backprop.DivGradientAsWritten`. */
  function DivRule(a: real, b: real, out: real): seq<real>
    requires b != 0.0
  {
    [out / b, -out * a / IntPow(b, 2)]
  }

  /** `DivByConstOp.gradient`: `output_grad / const_attr`. */
  function ReciprocalRule(c: real, out: real): real
    requires c != 0.0
  {
    out / c
  }

  /** `PowByConstOp.gradient`: `output_grad * n * A ** (n - 1)`. */
  function PowerRule(a: real, n: int, out: real): real
    requires a != 0.0 || n >= 1
  {
    out * n as real * IntPow(a, n - 1)
  }

  /** The contribution of the intended reflected division `c / A`: `-output_grad * c / A ** 2`. */
  function RDivRule(c: real, a: real, out: real): real
    requires a != 0.0
  {
    -out * c / IntPow(a, 2)
  }

  // Real-arithmetic steps the solver needs spelled out.

  lemma DivIsMulInverse(x: real, y: real)
    requires y != 0.0
    ensures x / y == x * (1.0 / y)
  {
  }

  lemma InverseOfProduct(x: real, y: real)
    requires x != 0.0 && y != 0.0
    ensures x * y != 0.0 && 1.0 / (x * y) == (1.0 / x) * (1.0 / y)
  {
  }

  /** With `u = 1/b` and `v = 1/(b+h)`, the two reciprocals differ by `h*u*v`. */
  lemma InverseStep(b: real, h: real, u: real, v: real)
    requires u * b == 1.0 && v * (b + h) == 1.0
    ensures v == u - h * u * v
  {
    assert v - u == v * (u * b) - u * (v * (b + h));
  }

  lemma SecondOrder(h: real, u: real, v: real)
    requires v == u - h * u * v
    ensures v == u - h * u * u + h * h * u * u * v
  {
    calc {
      u - h * u * u + h * h * u * u * v;
      u - h * u * (u - h * u * v);
      u - h * u * v;
    }
  }

  // The arithmetic of the lemmas below, over plain variables: each fact about an op
  // is passed in as the unfolded value of `Forward` or `Gradient`.

  lemma ProductScales(out: real, x: real, g: real, g1: real)
    requires g == out * x && g1 == 1.0 * x
    ensures g == out * g1
  {
  }

  lemma ConstantScales(out: real, c: real, g: real, g1: real)
    requires g == c * out && g1 == c * 1.0
    ensures g == out * g1
  {
  }

  lemma UnitScale(m: real, p: real, g: real, t: real)
    requires g == 1.0 * m * p && t == m * p
    ensures g == t
  {
  }

  lemma ThreeProductScales(out: real, x: real, y: real, g: real, g1: real)
    requires g == out * x * y && g1 == 1.0 * x * y
    ensures g == out * g1
  {
  }

  lemma QuotientScales(out: real, x: real, y: real, g: real, g1: real)
    requires y != 0.0 && g == out * x / y && g1 == 1.0 * x / y
    ensures g == out * g1
  {
    DivIsMulInverse(out * x, y);
    DivIsMulInverse(1.0 * x, y);
  }

  lemma ReciprocalScales(out: real, y: real, g: real, g1: real)
    requires y != 0.0 && g == out / y && g1 == 1.0 / y
    ensures g == out * g1
  {
    DivIsMulInverse(out, y);
  }

  lemma NegatedQuotientScales(out: real, x: real, y: real, g: real, g1: real)
    requires y != 0.0 && g == -out * x / y && g1 == -1.0 * x / y
    ensures g == out * g1
  {
    DivIsMulInverse(-out * x, y);
    DivIsMulInverse(-1.0 * x, y);
  }

  lemma MulGradientIsLinear(op: Op, args: seq<real>, out: real, i: nat)
    requires op == Mul && |args| == 2 && i < 2
    ensures Gradient(op, args, out).value[i] == out * Gradient(op, args, 1.0).value[i]
  {
    ProductScales(out, args[1 - i], Gradient(Mul, args, out).value[i],
                  Gradient(Mul, args, 1.0).value[i]);
  }

  lemma MulByConstGradientIsLinear(c: real, args: seq<real>, out: real)
    requires |args| == 1
    ensures Gradient(MulByConst(c), args, out).value[0]
         == out * Gradient(MulByConst(c), args, 1.0).value[0]
  {
    ConstantScales(out, c, Gradient(MulByConst(c), args, out).value[0],
                   Gradient(MulByConst(c), args, 1.0).value[0]);
  }

  lemma DivGradientIsLinear(op: Op, args: seq<real>, out: real, i: nat)
    requires op == Div && |args| == 2 && args[1] != 0.0 && i < 2
    ensures Gradient(op, args, out).value[i] == out * Gradient(op, args, 1.0).value[i]
  {
    if i == 0 {
      ReciprocalScales(out, args[1], Gradient(Div, args, out).value[0],
                       Gradient(Div, args, 1.0).value[0]);
    } else {
      NegatedQuotientScales(out, args[0], IntPow(args[1], 2), Gradient(Div, args, out).value[1],
                            Gradient(Div, args, 1.0).value[1]);
    }
  }

  lemma DivByConstGradientIsLinear(c: real, args: seq<real>, out: real)
    requires |args| == 1 && c != 0.0
    ensures Gradient(DivByConst(c), args, out).value[0]
         == out * Gradient(DivByConst(c), args, 1.0).value[0]
  {
    ReciprocalScales(out, c, Gradient(DivByConst(c), args, out).value[0],
                     Gradient(DivByConst(c), args, 1.0).value[0]);
  }

  lemma PowByConstGradientIsLinear(n: int, args: seq<real>, out: real)
    requires |args| == 1 && !(args[0] == 0.0 && n < 1)
    ensures Gradient(PowByConst(n), args, out).value[0]
         == out * Gradient(PowByConst(n), args, 1.0).value[0]
  {
    ThreeProductScales(out, n as real, IntPow(args[0], n - 1),
                       Gradient(PowByConst(n), args, out).value[0],
                       Gradient(PowByConst(n), args, 1.0).value[0]);
  }

  lemma RDivByConstGradientIsLinear(c: real, args: seq<real>, out: real)
    requires |args| == 1 && args[0] != 0.0
    ensures Gradient(RDivByConst(c), args, out).value[0]
         == out * Gradient(RDivByConst(c), args, 1.0).value[0]
  {
    NegatedQuotientScales(out, c, IntPow(args[0], 2), Gradient(RDivByConst(c), args, out).value[0],
                          Gradient(RDivByConst(c), args, 1.0).value[0]);
  }

  lemma UnaryGradientIsLinear(op: Op, args: seq<real>, out: real, i: nat)
    requires Arity(op) == 1 && |args| == 1 && !DividesByZero(op, args) && i == 0
    requires !(op.PowByConst? && op.n < 1 && args[0] == 0.0)
    ensures Gradient(op, args, out).value[i] == out * Gradient(op, args, 1.0).value[i]
  {
    match op
    case AddByConst(_) =>
    case MulByConst(c) => MulByConstGradientIsLinear(c, args, out);
    case DivByConst(c) => DivByConstGradientIsLinear(c, args, out);
    case PowByConst(n) => PowByConstGradientIsLinear(n, args, out);
    case RDivByConst(c) => RDivByConstGradientIsLinear(c, args, out);
  }

  /** Every contribution is linear in the output gradient: it is `out` times the
      contribution for a unit output gradient. */
  lemma GradientIsLinear(op: Op, args: seq<real>, out: real, i: nat)
    requires |args| == Arity(op)
    requires !op.Placeholder? ==> !DividesByZero(op, args)
    requires !(op.PowByConst? && op.n < 1 && args[0] == 0.0) && i < |args|
    ensures Gradient(op, args, out).value[i] == out * Gradient(op, args, 1.0).value[i]
  {
    if op.Mul? {
      MulGradientIsLinear(op, args, out, i);
    } else if op.Div? {
      DivGradientIsLinear(op, args, out, i);
    } else if Arity(op) == 1 {
      UnaryGradientIsLinear(op, args, out, i);
    }
  }

  /** The ops whose value is affine in input `i`. */
  predicate AffineIn(op: Op, i: nat) {
    op.Add? || op.AddByConst? || op.Mul? || op.MulByConst? || op.DivByConst? || (op.Div? && i == 0)
  }

  lemma ProductSlope(x: real, y: real, x1: real, f1: real, f0: real, g: real, h: real)
    requires x1 == x + h && f1 == x1 * y && f0 == x * y && g == 1.0 * y
    ensures f1 == f0 + h * g
  {
  }

  lemma ProductSlopeRight(x: real, y: real, y1: real, f1: real, f0: real, g: real, h: real)
    requires y1 == y + h && f1 == x * y1 && f0 == x * y && g == 1.0 * x
    ensures f1 == f0 + h * g
  {
  }

  lemma ScaleSlope(x: real, c: real, x1: real, f1: real, f0: real, g: real, h: real)
    requires x1 == x + h && f1 == x1 * c && f0 == x * c && g == c * 1.0
    ensures f1 == f0 + h * g
  {
  }

  lemma QuotientSlope(x: real, y: real, x1: real, f1: real, f0: real, g: real, h: real)
    requires y != 0.0 && x1 == x + h && f1 == x1 / y && f0 == x / y && g == 1.0 / y
    ensures f1 == f0 + h * g
  {
    DivIsMulInverse(x1, y);
    DivIsMulInverse(x, y);
  }

  lemma AddSlope(op: Op, args: seq<real>, i: nat, h: real)
    requires op == Add && |args| == 2 && i < 2
    ensures Forward(op, args[i := args[i] + h]).Ok?
    ensures Forward(op, args[i := args[i] + h]).value
         == Forward(op, args).value + h * Gradient(op, args, 1.0).value[i]
  {
  }

  lemma MulSlope(op: Op, args: seq<real>, i: nat, h: real)
    requires op == Mul && |args| == 2 && i < 2
    ensures Forward(op, args[i := args[i] + h]).Ok?
    ensures Forward(op, args[i := args[i] + h]).value
         == Forward(op, args).value + h * Gradient(op, args, 1.0).value[i]
  {
    var moved := args[i := args[i] + h];
    if i == 0 {
      ProductSlope(args[0], args[1], moved[0], Forward(Mul, moved).value, Forward(Mul, args).value,
                   Gradient(Mul, args, 1.0).value[0], h);
    } else {
      ProductSlopeRight(args[0], args[1], moved[1], Forward(Mul, moved).value,
                        Forward(Mul, args).value, Gradient(Mul, args, 1.0).value[1], h);
    }
  }

  lemma DivSlope(op: Op, args: seq<real>, i: nat, h: real)
    requires op == Div && |args| == 2 && args[1] != 0.0 && i == 0
    ensures Forward(op, args[i := args[i] + h]).Ok?
    ensures Forward(op, args[i := args[i] + h]).value
         == Forward(op, args).value + h * Gradient(op, args, 1.0).value[i]
  {
    var moved := args[0 := args[0] + h];
    QuotientSlope(args[0], args[1], moved[0], Forward(Div, moved).value, Forward(Div, args).value,
                  Gradient(Div, args, 1.0).value[0], h);
  }

  lemma UnarySlope(op: Op, args: seq<real>, i: nat, h: real)
    requires Arity(op) == 1 && |args| == 1 && !DividesByZero(op, args) && i == 0
    requires op.AddByConst? || op.MulByConst? || op.DivByConst?
    ensures Forward(op, args[i := args[i] + h]).Ok?
    ensures Forward(op, args[i := args[i] + h]).value
         == Forward(op, args).value + h * Gradient(op, args, 1.0).value[i]
  {
    var moved := args[0 := args[0] + h];
    match op
    case AddByConst(_) =>
    case MulByConst(c) =>
      ScaleSlope(args[0], c, moved[0], Forward(op, moved).value, Forward(op, args).value,
                 Gradient(op, args, 1.0).value[0], h);
    case DivByConst(c) =>
      QuotientSlope(args[0], c, moved[0], Forward(op, moved).value, Forward(op, args).value,
                    Gradient(op, args, 1.0).value[0], h);
  }

  /** For an op affine in input `i`, the contribution for a unit output gradient is the
      exact slope: moving input `i` by `h` moves the value by `h` times it. */
  lemma GradientIsSlope(op: Op, args: seq<real>, i: nat, h: real)
    requires !op.Placeholder? && |args| == Arity(op) && !DividesByZero(op, args)
    requires i < |args| && AffineIn(op, i)
    ensures Forward(op, args[i := args[i] + h]).Ok?
    ensures Forward(op, args[i := args[i] + h]).value
         == Forward(op, args).value + h * Gradient(op, args, 1.0).value[i]
  {
    if op.Add? {
      AddSlope(op, args, i, h);
    } else if op.Mul? {
      MulSlope(op, args, i, h);
    } else if op.Div? {
      DivSlope(op, args, i, h);
    } else {
      UnarySlope(op, args, i, h);
    }
  }

  lemma InverseOfSquare(b: real, b2: real)
    requires b != 0.0 && b2 == b * b
    ensures b2 != 0.0 && 1.0 / b2 == (1.0 / b) * (1.0 / b)
  {
    var u := 1.0 / b;
    assert b2 * (u * u) == (b * u) * (b * u);
  }

  /** `1 / r` to first order in `h`, with its exact remainder, where `r` is `b + h`,
      `b2` is `b ** 2` and `r2` is `b2 * r`. */
  lemma ReciprocalExpansion(b: real, h: real, b2: real, r: real, r2: real)
    requires b != 0.0 && r != 0.0 && r == b + h && b2 == b * b && r2 == b2 * r
    ensures b2 != 0.0 && r2 != 0.0
    ensures 1.0 / r == 1.0 / b - h * (1.0 / b2) + h * h * (1.0 / r2)
  {
    var u, v := 1.0 / b, 1.0 / r;
    InverseStep(b, h, u, v);
    SecondOrder(h, u, v);
    InverseOfSquare(b, b2);
    InverseOfProduct(b2, r);
  }

  /** `a * v` expanded, given `v`'s expansion in `u`, `w` and `q`, with each product
      `a * _` named by the quotient it equals. */
  lemma ScaledExpansion(a: real, h: real, u: real, v: real, w: real, q: real,
                        x: real, y: real, z: real, t: real)
    requires v == u - h * w + h * h * q
    requires x == a * v && y == a * u && z == -1.0 * a * w && t == a * q
    ensures x == y + h * z + h * h * t
  {
    assert a * (u - h * w + h * h * q) == a * u + h * (-1.0 * a * w) + h * h * (a * q);
  }

  /** `a / r` expanded as `1 / r` is, where `r` stands for `b + h`, `b2` for `b ** 2`
      and `r2` for `b2 * r`; keeping them abstract leaves only the substitution. */
  lemma QuotientExpansion(a: real, b: real, h: real, b2: real, r: real, r2: real)
    requires b != 0.0 && r != 0.0 && r2 != 0.0 && b2 != 0.0
    requires 1.0 / r == 1.0 / b - h * (1.0 / b2) + h * h * (1.0 / r2)
    ensures a / r == a / b + h * (-1.0 * a / b2) + h * h * (a / r2)
  {
    DivIsMulInverse(a, r);
    DivIsMulInverse(a, b);
    DivIsMulInverse(-1.0 * a, b2);
    DivIsMulInverse(a, r2);
    ScaledExpansion(a, h, 1.0 / b, 1.0 / r, 1.0 / b2, 1.0 / r2,
                    a / r, a / b, -1.0 * a / b2, a / r2);
  }

  /** `a / (b + h)` to first order in `h`, with its exact remainder. */
  lemma QuotientRule(a: real, b: real, h: real)
    requires b != 0.0 && b + h != 0.0
    ensures b * b != 0.0 && (b * b) * (b + h) != 0.0
    ensures a / (b + h) == a / b + h * (-1.0 * a / (b * b)) + h * h * (a / ((b * b) * (b + h)))
  {
    ReciprocalExpansion(b, h, b * b, b + h, (b * b) * (b + h));
    QuotientExpansion(a, b, h, b * b, b + h, (b * b) * (b + h));
  }

  /** The values the divide op computes at `B` and at `B + h`, and its contribution to `B`. */
  lemma DivValues(a: real, b: real, h: real)
    requires b != 0.0 && b + h != 0.0
    ensures Forward(Div, [a, b + h]).value == a / (b + h) && Forward(Div, [a, b]).value == a / b
    ensures Gradient(Div, [a, b], 1.0).value[1] == -1.0 * a / (b * b)
  {
    IntPowUnitExponents(b);
  }

  /** The quotient rule for the divisor: moving `B` by `h` moves `A / B` by `h` times
      the contribution, up to a term of second order in `h`. */
  lemma DivisorGradientIsDerivative(a: real, b: real, h: real)
    requires b != 0.0 && b + h != 0.0
    ensures (b * b) * (b + h) != 0.0
    ensures Forward(Div, [a, b + h]).value
         == Forward(Div, [a, b]).value + h * Gradient(Div, [a, b], 1.0).value[1]
            + h * h * (a / ((b * b) * (b + h)))
  {
    DivValues(a, b, h);
    QuotientRule(a, b, h);
  }

  /** The values the reflected divide op computes at `A` and at `A + h`, and its contribution. */
  lemma RDivValues(c: real, a: real, h: real)
    requires a != 0.0 && a + h != 0.0
    ensures Forward(RDivByConst(c), [a + h]).value == c / (a + h) && Forward(RDivByConst(c), [a]).value == c / a
    ensures Gradient(RDivByConst(c), [a], 1.0).value[0] == -1.0 * c / (a * a)
  {
    IntPowUnitExponents(a);
  }

  /** The same rule for reflected division `c / A`. */
  lemma ReflectedDivGradientIsDerivative(c: real, a: real, h: real)
    requires a != 0.0 && a + h != 0.0
    ensures (a * a) * (a + h) != 0.0
    ensures Forward(RDivByConst(c), [a + h]).value
         == Forward(RDivByConst(c), [a]).value + h * Gradient(RDivByConst(c), [a], 1.0).value[0]
            + h * h * (c / ((a * a) * (a + h)))
  {
    RDivValues(c, a, h);
    QuotientRule(c, a, h);
  }

  /** The slope of the secant of `x ** n` between `a` and `b`:
      the sum of `a ** i * b ** (n - 1 - i)` for `i < n`. */
  function Slope(a: real, b: real, n: nat): real
  {
    if n == 0 then 0.0 else b * Slope(a, b, n - 1) + Power(a, n - 1)
  }

  lemma SecantStep(a: real, b: real, pb: real, pa: real, s: real, pb1: real, pa1: real, s1: real)
    requires pb1 - pa1 == (b - a) * s1
    requires pb == b * pb1 && pa == a * pa1 && s == b * s1 + pa1
    ensures pb - pa == (b - a) * s
  {
    assert pb - pa == b * (pb1 - pa1) + (b - a) * pa1;
  }

  /** `Slope` is the secant slope: `b ** n - a ** n == (b - a) * Slope(a, b, n)`. */
  lemma {:induction false} Secant(a: real, b: real, n: nat)
    ensures Power(b, n) - Power(a, n) == (b - a) * Slope(a, b, n)
  {
    if n > 0 {
      Secant(a, b, n - 1);
      SecantStep(a, b, Power(b, n), Power(a, n), Slope(a, b, n),
                 Power(b, n - 1), Power(a, n - 1), Slope(a, b, n - 1));
    }
  }

  lemma TangentStep(a: real, m: real, s: real, s1: real, p: real, p1: real)
    requires s1 == (m - 1.0) * p1 && p == a * p1 && s == a * s1 + p
    ensures s == m * p
  {
  }

  /** Where the two points meet, the secant slope is `n * a ** (n - 1)`. */
  lemma {:induction false} Tangent(a: real, n: nat)
    requires n >= 1
    ensures Slope(a, a, n) == n as real * Power(a, n - 1)
  {
    if n > 1 {
      Tangent(a, n - 1);
      var s1, p1, p := Slope(a, a, n - 1), Power(a, n - 2), Power(a, n - 1);
      assert s1 == (n - 1) as real * p1;
      assert p == a * p1;
      assert Slope(a, a, n) == a * s1 + p;
      TangentStep(a, n as real, Slope(a, a, n), s1, p, p1);
    }
  }

  /** The power rule the power-by-constant op applies, for `n >= 1`: the change of the
      value between `a` and `b` is `b - a` times a polynomial slope, and at `b == a`
      that slope is the contribution for a unit output gradient. */
  lemma PowByConstGradientIsDerivative(a: real, b: real, n: nat)
    requires n >= 1
    ensures Forward(PowByConst(n), [b]).value - Forward(PowByConst(n), [a]).value
         == (b - a) * Slope(a, b, n)
    ensures Gradient(PowByConst(n), [a], 1.0).value[0] == Slope(a, a, n)
  {
    PowValues(a, b, n);
    Secant(a, b, n);
    UnitTangent(a, n);
  }

  /** `Tangent` in the shape the power rule computes it, for a unit output gradient. */
  lemma UnitTangent(a: real, n: nat)
    requires n >= 1
    ensures Slope(a, a, n) == 1.0 * n as real * Power(a, n - 1)
  {
    Tangent(a, n);
    UnitScale(n as real, Power(a, n - 1), 1.0 * n as real * Power(a, n - 1), Slope(a, a, n));
  }

  /** The values the power-by-constant op computes, for `n >= 1`. */
  lemma PowValues(a: real, b: real, n: nat)
    requires n >= 1
    ensures Forward(PowByConst(n), [b]) == Ok(Power(b, n)) && Forward(PowByConst(n), [a]) == Ok(Power(a, n))
    ensures Gradient(PowByConst(n), [a], 1.0).Ok?
    ensures Gradient(PowByConst(n), [a], 1.0).value[0] == 1.0 * n as real * Power(a, n - 1)
  {
    assert IntPow(a, n - 1) == Power(a, n - 1);
  }

  // The graph.

  /** Every node's inputs were created before it. */
  predicate Acyclic(g: seq<Node>) {
    forall k, j :: 0 <= k < |g| && 0 <= j < |g[k].inputs| ==> g[k].inputs[j] < k
  }

  predicate InGraph(g: seq<Node>, ins: seq<nat>) {
    forall j :: 0 <= j < |ins| ==> ins[j] < |g|
  }

  /** The values of the nodes `ins`, in order. */
  function ArgValues(g: seq<Node>, ins: seq<nat>): (r: seq<real>)
    requires InGraph(g, ins)
    ensures |r| == |ins|
    ensures forall j :: 0 <= j < |ins| ==> r[j] == g[ins[j]].value
  {
    seq(|ins|, j requires 0 <= j < |ins| => g[ins[j]].value)
  }

  /** Node `k` has as many inputs as its op takes, and, unless it is a placeholder,
      the value its op computed from them. */
  predicate NodeOk(g: seq<Node>, k: nat)
    requires k < |g| && InGraph(g, g[k].inputs)
  {
    |g[k].inputs| == Arity(g[k].op)
    && (g[k].op.Placeholder? || Forward(g[k].op, ArgValues(g, g[k].inputs)) == Ok(g[k].value))
  }

  predicate WellFormed(g: seq<Node>) {
    Acyclic(g) && forall k :: 0 <= k < |g| ==> InGraph(g, g[k].inputs) && NodeOk(g, k)
  }

  /** A node of a well-formed graph never divides by zero. */
  lemma NodeDividesByNothing(g: seq<Node>, k: nat)
    requires WellFormed(g) && k < |g| && !g[k].op.Placeholder?
    ensures InGraph(g, g[k].inputs) && |g[k].inputs| == Arity(g[k].op)
    ensures !DividesByZero(g[k].op, ArgValues(g, g[k].inputs))
  {
    assert NodeOk(g, k);
  }

  /** Appending a node whose inputs exist and whose value is its op's keeps a graph
      well formed. */
  lemma AppendKeepsWellFormed(g: seq<Node>, n: Node)
    requires WellFormed(g) && InGraph(g, n.inputs) && |n.inputs| == Arity(n.op)
    requires !n.op.Placeholder? ==> Forward(n.op, ArgValues(g, n.inputs)) == Ok(n.value)
    ensures WellFormed(g + [n])
  {
    var h := g + [n];
    forall m | 0 <= m < |g|
      ensures InGraph(h, h[m].inputs) && NodeOk(h, m)
    {
      assert h[m] == g[m];
      assert ArgValues(h, h[m].inputs) == ArgValues(g, g[m].inputs);
    }
    assert ArgValues(h, n.inputs) == ArgValues(g, n.inputs);
    assert NodeOk(h, |g|);
  }

  /** An operand of a Python operator on a node: another node, or a number. */
  datatype Operand = Ref(index: nat) | Constant(c: real)

  /** The op and inputs that `x + other` (and `other + x`) dispatches to. */
  function AddCall(x: nat, other: Operand): (Op, seq<nat>) {
    match other
    case Ref(y) => (Add, [x, y])
    case Constant(c) => (AddByConst(c), [x])
  }

  /** The op and inputs that `x * other` (and `other * x`) dispatches to. */
  function MulCall(x: nat, other: Operand): (Op, seq<nat>) {
    match other
    case Ref(y) => (Mul, [x, y])
    case Constant(c) => (MulByConst(c), [x])
  }

  /** The op and inputs that `x / other` dispatches to. */
  function DivCall(x: nat, other: Operand): (Op, seq<nat>) {
    match other
    case Ref(y) => (Div, [x, y])
    case Constant(c) => (DivByConst(c), [x])
  }

  /** Creating a node with `op` on `ins` turned `g0` into `g1` with result `r`: the
      node with the computed value is appended, or the evaluation raised and nothing
      was appended. */
  ghost predicate Created(g0: seq<Node>, g1: seq<Node>, r: Result<nat>, op: Op, ins: seq<nat>)
    requires !op.Placeholder? && |ins| == Arity(op) && InGraph(g0, ins)
  {
    var v := Forward(op, ArgValues(g0, ins));
    if v.Ok? then r == Ok(|g0|) && g1 == g0 + [Node(op, ins, v.value)]
    else r == Err(v.error) && g1 == g0
  }

  /** The computation graph: every node ever created, a node's identity being its
      index. Creating a node appends it. */
  class Graph {
    var nodes: seq<Node>

    ghost predicate Valid()
      reads this
    {
      WellFormed(nodes)
    }

    constructor()
      ensures Valid() && nodes == []
    {
      nodes := [];
    }

    /** `Variable(name, value)`: a placeholder node holding `value`. */
    method Variable(value: real) returns (x: nat)
      requires Valid()
      modifies this
      ensures Valid()
      ensures x == |old(nodes)| && nodes == old(nodes) + [Node(Placeholder, [], value)]
    {
      x := |nodes|;
      AppendKeepsWellFormed(nodes, Node(Placeholder, [], value));
      nodes := nodes + [Node(Placeholder, [], value)];
    }

    /** An op's `__call__` on existing nodes: the node is created with its value, or
        the evaluation raises and no node is left behind. */
    method Call(op: Op, ins: seq<nat>) returns (r: Result<nat>)
      requires Valid() && !op.Placeholder? && |ins| == Arity(op) && InGraph(nodes, ins)
      modifies this
      ensures Valid() && Created(old(nodes), nodes, r, op, ins)
    {
      var v := Forward(op, ArgValues(nodes, ins));
      if v.Err? {
        return Err(v.error);
      }
      AppendKeepsWellFormed(nodes, Node(op, ins, v.value));
      r := Ok(|nodes|);
      nodes := nodes + [Node(op, ins, v.value)];
    }

    /** `x + other` and `other + x`. */
    method Plus(x: nat, other: Operand) returns (r: Result<nat>)
      requires Valid() && x < |nodes| && (other.Ref? ==> other.index < |nodes|)
      modifies this
      ensures Valid() && Created(old(nodes), nodes, r, AddCall(x, other).0, AddCall(x, other).1)
    {
      r := Call(AddCall(x, other).0, AddCall(x, other).1);
    }

    /** `x * other` and `other * x`. */
    method Times(x: nat, other: Operand) returns (r: Result<nat>)
      requires Valid() && x < |nodes| && (other.Ref? ==> other.index < |nodes|)
      modifies this
      ensures Valid() && Created(old(nodes), nodes, r, MulCall(x, other).0, MulCall(x, other).1)
    {
      r := Call(MulCall(x, other).0, MulCall(x, other).1);
    }

    /** `x / other`. */
    method Over(x: nat, other: Operand) returns (r: Result<nat>)
      requires Valid() && x < |nodes| && (other.Ref? ==> other.index < |nodes|)
      modifies this
      ensures Valid() && Created(old(nodes), nodes, r, DivCall(x, other).0, DivCall(x, other).1)
    {
      r := Call(DivCall(x, other).0, DivCall(x, other).1);
    }

    /** `c / x` as written: the reflected operator is the forward one, so the node
        built is `x / c`. */
    method ROverAsWritten(c: real, x: nat) returns (r: Result<nat>)
      requires Valid() && x < |nodes|
      modifies this
      ensures Valid() && Created(old(nodes), nodes, r, DivByConst(c), [x])
    {
      r := Over(x, Constant(c));
    }

    /** `c / x` as evidently intended: a node whose value is `c / x`. */
    method ROver(c: real, x: nat) returns (r: Result<nat>)
      requires Valid() && x < |nodes|
      modifies this
      ensures Valid() && Created(old(nodes), nodes, r, RDivByConst(c), [x])
    {
      r := Call(RDivByConst(c), [x]);
    }

    /** `x ** n` for an integer constant `n`. */
    method Power(x: nat, n: int) returns (r: Result<nat>)
      requires Valid() && x < |nodes|
      modifies this
      ensures Valid() && Created(old(nodes), nodes, r, PowByConst(n), [x])
    {
      r := Call(PowByConst(n), [x]);
    }

    /** `c ** x` as written: the reflected operator is the forward one, so the node
        built is `x ** c`. */
    method RPowerAsWritten(c: int, x: nat) returns (r: Result<nat>)
      requires Valid() && x < |nodes|
      modifies this
      ensures Valid() && Created(old(nodes), nodes, r, PowByConst(c), [x])
    {
      r := Power(x, c);
    }
  }

  /** As written, `c / x` evaluates to `x / c`: for `x = 2` and `c = 1` it is `2`, not
      `1 / 2`; the intended op gives `1 / 2`. */
  lemma ReflectedDivisionAsWritten()
    ensures Forward(DivByConst(1.0), [2.0]) == Ok(2.0)
    ensures Forward(RDivByConst(1.0), [2.0]) == Ok(0.5)
  {
  }

  /** As written, `2 ** x` at `x = 3` evaluates to `3 ** 2 = 9`, not `2 ** 3 = 8`. */
  lemma ReflectedPowerAsWritten()
    ensures Forward(PowByConst(2), [3.0]) == Ok(9.0)
  {
    IntPowUnitExponents(3.0);
  }

  /** For every non-zero `x`, the as-written node holds `x / c`, so multiplying it by
      `c` gives `x` back, whereas the intended node holds the number that gives `c`
      when multiplied by `x`. */
  lemma ReflectedDivisionIsQuotient(c: real, x: real)
    requires x != 0.0
    ensures c != 0.0 ==> Forward(DivByConst(c), [x]).value * c == x
    ensures Forward(RDivByConst(c), [x]).Ok? && Forward(RDivByConst(c), [x]).value * x == c
  {
  }
}
