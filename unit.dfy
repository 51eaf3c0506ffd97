/** Units of measurement: a dimension, a prefix and a display symbol. */
module Units {
  import opened Outcomes
  import opened Numbers
  import BQ = BaseQuantities
  import P = Prefixes

  /** `given` is the symbol passed to the constructor. When it is absent or empty the
      unit shows its base's repr instead (see `Symbol`). */
  datatype Unit = Unit(base: BQ.BaseQuantity, prefix: P.Prefix, given: Option<string>)

  /** `Unit(base, prefix, symbol)`: the base must be a BaseQuantity and the prefix a
      Prefix, otherwise TypeError; an omitted prefix is `Prefix(1)`. */
  function Make(base: Operand<BQ.BaseQuantity>, prefix: Option<Operand<P.Prefix>>,
                symbol: Option<string>): (r: Result<Unit>)
    ensures r.Ok? <==> base.Obj? && (prefix.None? || prefix.value.Obj?)
    ensures r.Err? ==> r.error == TypeError
    ensures r.Ok? ==> r.value.base == base.obj && r.value.given == symbol
    ensures r.Ok? && prefix.None? ==> r.value.prefix == P.One
    ensures r.Ok? && prefix.Some? ==> r.value.prefix == prefix.value.obj
  {
    if !base.Obj? then Err(TypeError)
    else match prefix
      case None => Ok(Unit(base.obj, P.One, symbol))
      case Some(p) => if p.Obj? then Ok(Unit(base.obj, p.obj, symbol)) else Err(TypeError)
  }

  /** A unit built without a symbol, as `*`, `/` and `**` build their results. */
  function Of(base: BQ.BaseQuantity, prefix: P.Prefix): Unit {
    Unit(base, prefix, None)
  }

  /** The unit's `symbol` attribute: the given symbol when it is non-empty, otherwise
      the repr of the base; `show` formats exponents. */
  function Symbol(u: Unit, show: real -> string): string {
    if u.given.Some? && u.given.value != "" then u.given.value else BQ.Repr(u.base, show)
  }

  /** How a prefix symbol is printed inside the brackets; a missing one prints `None`. */
  function PrefixText(p: P.Prefix): string {
    if p.symbol.Some? then p.symbol.value else "None"
  }

  /** `repr`: the bare symbol when the prefix equals `Prefix(1)`, otherwise the prefix
      symbol in brackets followed by the symbol. */
  function Repr(u: Unit, show: real -> string): string {
    if P.Eq(u.prefix, P.One) then Symbol(u, show)
    else "[" + PrefixText(u.prefix) + "]" + Symbol(u, show)
  }

  function Mul(u: Unit, v: Unit): Unit {
    Of(BQ.Mul(u.base, v.base), P.Mul(u.prefix, v.prefix))
  }

  function Div(u: Unit, v: Unit): Unit {
    Of(BQ.Div(u.base, v.base), P.Div(u.prefix, v.prefix))
  }

  function Pow(u: Unit, n: int): Unit {
    Of(BQ.Pow(u.base, n as real), P.Pow(u.prefix, n))
  }

  /** `u * other`: only another Unit is accepted. */
  function MulBy(u: Unit, other: Operand<Unit>): (r: Result<Unit>)
    ensures r.Ok? <==> other.Obj?
    ensures r.Err? ==> r.error == TypeError
    ensures r.Ok? ==> r.value.base == BQ.Mul(u.base, other.obj.base)
    ensures r.Ok? ==> r.value.prefix.factor == u.prefix.factor * other.obj.prefix.factor
  {
    if other.Obj? then Ok(Mul(u, other.obj)) else Err(TypeError)
  }

  /** `u / other`: only another Unit is accepted. */
  function DivBy(u: Unit, other: Operand<Unit>): (r: Result<Unit>)
    ensures r.Ok? <==> other.Obj?
    ensures r.Err? ==> r.error == TypeError
    ensures r.Ok? ==> r.value.base == BQ.Div(u.base, other.obj.base)
    ensures r.Ok? ==> r.value.prefix.factor * other.obj.prefix.factor == u.prefix.factor
  {
    if other.Obj? then Ok(Div(u, other.obj)) else Err(TypeError)
  }

  /** `u ** power`: a number is accepted, anything else is a TypeError. Only integral
      powers are modelled. */
  function PowBy(u: Unit, power: Operand<Unit>): (r: Result<Unit>)
    requires power.Num? ==> power.x == power.x.Floor as real
    ensures r.Ok? <==> power.Num?
    ensures r.Err? ==> r.error == TypeError
    ensures r.Ok? ==> r.value.base == BQ.Pow(u.base, power.x)
    ensures r.Ok? ==> r.value.prefix.factor == IntPow(u.prefix.factor, power.x.Floor)
  {
    if power.Num? then Ok(Pow(u, power.x.Floor)) else Err(TypeError)
  }

  /** Equality: equal bases and equal prefixes; the symbol plays no part. */
  predicate Eq(u: Unit, v: Unit) {
    u.base == v.base && P.Eq(u.prefix, v.prefix)
  }

  /** Two units that differ only in their symbols are equal. */
  lemma EqIgnoresSymbol(u: Unit, s: Option<string>)
    ensures Eq(u, Unit(u.base, u.prefix, s))
  {
  }

  /** `==` on units is reflexive, symmetric and transitive. */
  lemma EqIsEquivalence(u: Unit, v: Unit, w: Unit)
    ensures Eq(u, u)
    ensures Eq(u, v) ==> Eq(v, u)
    ensures Eq(u, v) && Eq(v, w) ==> Eq(u, w)
  {
  }

  /** Products and quotients depend on their operands only up to `==`: equal operands
      give identical results. */
  lemma OperationsRespectEq(u: Unit, u': Unit, v: Unit, v': Unit)
    requires Eq(u, u') && Eq(v, v')
    ensures Mul(u, v) == Mul(u', v')
    ensures Div(u, v) == Div(u', v')
  {
    assert u.prefix.factor * v.prefix.factor == u'.prefix.factor * v'.prefix.factor;
  }

  /** `(u * v) / v == u`. */
  lemma DivUndoesMul(u: Unit, v: Unit)
    ensures Eq(Div(Mul(u, v), v), u)
  {
    BQ.DivUndoesMul(u.base, v.base);
    var f, g := u.prefix.factor, v.prefix.factor;
    assert (f * g) / g == f;
  }

  /** `u ** 2 == u * u`. */
  lemma PowAgreesWithMul(u: Unit)
    ensures Pow(u, 2) == Mul(u, u)
  {
    IntPowUnitExponents(u.prefix.factor);
    assert P.Pow(u.prefix, 2) == P.Mul(u.prefix, u.prefix);
  }

  /** `u * u ** -1` is dimensionless with `Prefix(1)`. */
  lemma PowInverts(u: Unit)
    ensures Eq(Mul(u, Pow(u, -1)), Of(BQ.Dimensionless, P.One))
  {
    BQ.InverseCancels(u.base);
    var f := u.prefix.factor;
    IntPowUnitExponents(f);
    assert f * IntPow(f, -1) == 1.0;
  }

  /** A unit built by `*`, `/` or `**` shows its base's repr as its symbol. */
  lemma DerivedSymbolIsBaseRepr(u: Unit, v: Unit, show: real -> string)
    ensures Symbol(Mul(u, v), show) == BQ.Repr(BQ.Mul(u.base, v.base), show)
    ensures Symbol(Div(u, v), show) == BQ.Repr(BQ.Div(u.base, v.base), show)
  {
  }

  /** The repr carries the prefix in brackets exactly when the prefix differs from
      `Prefix(1)`. */
  lemma ReprShowsPrefix(u: Unit, show: real -> string)
    ensures u.prefix.factor == 1.0 ==> Repr(u, show) == Symbol(u, show)
    ensures u.prefix.factor != 1.0 ==> Repr(u, show) == "[" + PrefixText(u.prefix) + "]" + Symbol(u, show)
  {
  }
}
