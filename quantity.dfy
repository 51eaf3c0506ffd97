/** Physical quantities: a numeric value carried in a unit. Both Quantity classes of the
    repository are modelled here: the current one and the earlier `measurements` variant
    agree on every operation the earlier one defines, except that the earlier one spells
    negation as `-value` where the current one multiplies by `-1` (see `NegNegatesValue`). */
module Quantities {
  import opened Outcomes
  import opened Numbers
  import BQ = BaseQuantities
  import P = Prefixes
  import U = Units

  datatype Quantity = Quantity(value: real, unit: U.Unit)

  /** The unit of `Quantity(value)` when none is given: dimensionless, `Prefix(1)`. */
  const DefaultUnit := U.Of(BQ.Dimensionless, P.One)

  /** `Quantity(value)` with the default unit. */
  function Plain(v: real): Quantity {
    Quantity(v, DefaultUnit)
  }

  /** A quantity whose base is all-zero. */
  predicate IsScalar(q: Quantity) {
    q.unit.base == BQ.Dimensionless
  }

  /** Whether `+` and `-` accept the right operand: a number only next to a scalar
      quantity, a Quantity only of the same base. */
  predicate Addable(a: Quantity, other: Operand<Quantity>) {
    match other
    case Num(_) => IsScalar(a)
    case Obj(b) => a.unit.base == b.unit.base
    case Other => false
  }

  /** `q.to(t)`: the same amount in unit `t`; bases must agree, otherwise ValueError. */
  function To(q: Quantity, t: U.Unit): (r: Result<Quantity>)
    ensures r.Ok? <==> q.unit.base == t.base
    ensures r.Err? ==> r.error == ValueError
    ensures r.Ok? ==> r.value.unit == t
    ensures r.Ok? ==> r.value.value * t.prefix.factor == q.value * q.unit.prefix.factor
  {
    if q.unit.base != t.base then Err(ValueError)
    else Ok(Quantity(q.value * q.unit.prefix.factor / t.prefix.factor, t))
  }

  /** `a + other` (and `other + a`, which is the same method). A Quantity of another
      base is a TypeError; an operand that is neither a number nor a Quantity makes the
      error message itself fail on `other.unit`, an AttributeError. */
  function Add(a: Quantity, other: Operand<Quantity>): (r: Result<Quantity>)
    ensures r.Ok? <==> Addable(a, other)
    ensures r.Err? ==> r.error == (if other.Other? then AttributeError else TypeError)
    ensures r.Ok? ==> r.value.unit == a.unit
    ensures r.Ok? && other.Num? ==> r.value.value == a.value + other.x
    ensures r.Ok? && other.Obj? ==> r.value.value == a.value + To(other.obj, a.unit).value.value
  {
    match other
    case Num(x) =>
      if IsScalar(a) then Ok(Quantity(a.value + x, a.unit)) else Err(TypeError)
    case Obj(b) =>
      if a.unit.base != b.unit.base then Err(TypeError)
      else if P.Eq(a.unit.prefix, b.unit.prefix) then Ok(Quantity(a.value + b.value, a.unit))
      else Ok(Quantity(a.value + b.value * b.unit.prefix.factor / a.unit.prefix.factor, a.unit))
    case Other => Err(AttributeError)
  }

  /** `a - other`, with the same operand rules as `+`. */
  function Sub(a: Quantity, other: Operand<Quantity>): (r: Result<Quantity>)
    ensures r.Ok? <==> Addable(a, other)
    ensures r.Err? ==> r.error == (if other.Other? then AttributeError else TypeError)
    ensures r.Ok? ==> r.value.unit == a.unit
    ensures r.Ok? && other.Num? ==> r.value.value == a.value - other.x
    ensures r.Ok? && other.Obj? ==> r.value.value == a.value - To(other.obj, a.unit).value.value
  {
    match other
    case Num(x) =>
      if IsScalar(a) then Ok(Quantity(a.value - x, a.unit)) else Err(TypeError)
    case Obj(b) =>
      if a.unit.base != b.unit.base then Err(TypeError)
      else if P.Eq(a.unit.prefix, b.unit.prefix) then Ok(Quantity(a.value - b.value, a.unit))
      else Ok(Quantity(a.value - b.value * b.unit.prefix.factor / a.unit.prefix.factor, a.unit))
    case Other => Err(AttributeError)
  }

  /** `other - a`, computed as `-(a - other)`. */
  function RSub(a: Quantity, other: Operand<Quantity>): Result<Quantity> {
    match Sub(a, other)
    case Ok(d) => Ok(Neg(d))
    case Err(e) => Err(e)
  }

  /** `a * other` (and `other * a`): Quantities multiply values and units, a number
      scales the value; any other operand is a ValueError. */
  function Mul(a: Quantity, other: Operand<Quantity>): (r: Result<Quantity>)
    ensures r.Ok? <==> !other.Other?
    ensures r.Err? ==> r.error == ValueError
    ensures r.Ok? && other.Num? ==> r.value == Quantity(a.value * other.x, a.unit)
    ensures r.Ok? && other.Obj? ==> r.value.unit.base == BQ.Mul(a.unit.base, other.obj.unit.base)
    ensures r.Ok? && other.Obj? ==> r.value == Quantity(a.value * other.obj.value, U.Mul(a.unit, other.obj.unit))
  {
    match other
    case Obj(b) => Ok(Quantity(a.value * b.value, U.Mul(a.unit, b.unit)))
    case Num(x) => Ok(Quantity(a.value * x, a.unit))
    case Other => Err(ValueError)
  }

  /** `a / other`; a zero divisor is a ZeroDivisionError. */
  function Div(a: Quantity, other: Operand<Quantity>): (r: Result<Quantity>)
    ensures r.Ok? <==> (other.Obj? && other.obj.value != 0.0) || (other.Num? && other.x != 0.0)
    ensures r.Err? ==> r.error == (if other.Other? then ValueError else ZeroDivisionError)
    ensures r.Ok? && other.Num? ==> r.value.unit == a.unit && r.value.value * other.x == a.value
    ensures r.Ok? && other.Obj? ==> r.value.unit.base == BQ.Div(a.unit.base, other.obj.unit.base)
    ensures r.Ok? && other.Obj? ==> r.value.value * other.obj.value == a.value
    ensures r.Ok? && other.Obj? ==> r.value.unit == U.Div(a.unit, other.obj.unit)
  {
    match other
    case Obj(b) =>
      if b.value == 0.0 then Err(ZeroDivisionError)
      else Ok(Quantity(a.value / b.value, U.Div(a.unit, b.unit)))
    case Num(x) =>
      if x == 0.0 then Err(ZeroDivisionError) else Ok(Quantity(a.value / x, a.unit))
    case Other => Err(ValueError)
  }

  /** `other / a`: a number over a Quantity inverts the unit. */
  function RDiv(a: Quantity, other: Operand<Quantity>): (r: Result<Quantity>)
    ensures r.Ok? <==> !other.Other? && a.value != 0.0
    ensures r.Err? ==> r.error == (if other.Other? then ValueError else ZeroDivisionError)
    ensures r.Ok? ==> r.value.value * a.value == (if other.Num? then other.x else other.obj.value)
    ensures r.Ok? && other.Num? ==> r.value.unit == U.Pow(a.unit, -1)
    ensures r.Ok? && other.Obj? ==> r.value.unit == U.Div(other.obj.unit, a.unit)
  {
    match other
    case Num(x) =>
      if a.value == 0.0 then Err(ZeroDivisionError) else Ok(Quantity(x / a.value, U.Pow(a.unit, -1)))
    case Obj(b) =>
      if a.value == 0.0 then Err(ZeroDivisionError)
      else Ok(Quantity(b.value / a.value, U.Div(b.unit, a.unit)))
    case Other => Err(ValueError)
  }

  /** The integral exponent an operand of `**` denotes: a number, or a Quantity's value. */
  function ExponentOf(e: Operand<Quantity>): int
    requires !e.Other?
  {
    if e.Num? then e.x.Floor else e.obj.value.Floor
  }

  /** Exponents are modelled only when integral. */
  predicate IntegralExponent(e: Operand<Quantity>) {
    match e
    case Num(x) => x == x.Floor as real
    case Obj(q) => q.value == q.value.Floor as real
    case Other => true
  }

  /** `a ** e`: value and unit are raised to the exponent; a Quantity exponent contributes
      only its value; zero to a negative power is a ZeroDivisionError. */
  function Pow(a: Quantity, e: Operand<Quantity>): (r: Result<Quantity>)
    requires IntegralExponent(e)
    ensures r.Err? <==> e.Other? || (a.value == 0.0 && ExponentOf(e) < 0)
    ensures r.Err? ==> r.error == (if e.Other? then TypeError else ZeroDivisionError)
    ensures r.Ok? ==> r.value.unit == U.Pow(a.unit, ExponentOf(e))
    ensures r.Ok? ==> r.value.value == IntPow(a.value, ExponentOf(e))
  {
    if e.Other? then Err(TypeError)
    else
      var n := ExponentOf(e);
      if a.value == 0.0 && n < 0 then Err(ZeroDivisionError)
      else Ok(Quantity(IntPow(a.value, n), U.Pow(a.unit, n)))
  }

  /** The number an operand of `//` or `%` stands for: itself, or a Quantity's value. */
  function ValueOf(other: Operand<Quantity>): real
    requires !other.Other?
  {
    if other.Num? then other.x else other.obj.value
  }

  /** `a // other`: floor of the quotient; a Quantity divisor divides the units. */
  function FloorDiv(a: Quantity, other: Operand<Quantity>): (r: Result<Quantity>)
    ensures r.Ok? <==> (other.Obj? && other.obj.value != 0.0) || (other.Num? && other.x != 0.0)
    ensures r.Err? ==> r.error == (if other.Other? then ValueError else ZeroDivisionError)
    ensures r.Ok? && other.Num? ==> r.value.unit == a.unit
    ensures r.Ok? && other.Obj? ==> r.value.unit == U.Div(a.unit, other.obj.unit)
    ensures r.Ok? ==> r.value.value == Numbers.FloorDiv(a.value, ValueOf(other))
  {
    match other
    case Obj(b) =>
      if b.value == 0.0 then Err(ZeroDivisionError)
      else Ok(Quantity(Numbers.FloorDiv(a.value, b.value), U.Div(a.unit, b.unit)))
    case Num(x) =>
      if x == 0.0 then Err(ZeroDivisionError) else Ok(Quantity(Numbers.FloorDiv(a.value, x), a.unit))
    case Other => Err(ValueError)
  }

  /** `a % other`: the remainder keeps the left unit, whatever the divisor's unit. */
  function Mod(a: Quantity, other: Operand<Quantity>): (r: Result<Quantity>)
    ensures r.Ok? <==> (other.Obj? && other.obj.value != 0.0) || (other.Num? && other.x != 0.0)
    ensures r.Err? ==> r.error == (if other.Other? then ValueError else ZeroDivisionError)
    ensures r.Ok? ==> r.value.unit == a.unit
    ensures r.Ok? ==> r.value.value == Numbers.Mod(a.value, ValueOf(other))
  {
    match other
    case Obj(b) =>
      if b.value == 0.0 then Err(ZeroDivisionError)
      else Ok(Quantity(Numbers.Mod(a.value, b.value), a.unit))
    case Num(x) =>
      if x == 0.0 then Err(ZeroDivisionError) else Ok(Quantity(Numbers.Mod(a.value, x), a.unit))
    case Other => Err(ValueError)
  }

  /** `other // a`. */
  function RFloorDiv(a: Quantity, other: Operand<Quantity>): (r: Result<Quantity>)
    ensures r.Ok? <==> !other.Other? && a.value != 0.0
    ensures r.Err? ==> r.error == (if other.Other? then ValueError else ZeroDivisionError)
    ensures r.Ok? && other.Num? ==> r.value.unit == U.Pow(a.unit, -1)
    ensures r.Ok? && other.Obj? ==> r.value.unit == U.Div(other.obj.unit, a.unit)
    ensures r.Ok? ==> r.value.value == Numbers.FloorDiv(ValueOf(other), a.value)
  {
    match other
    case Num(x) =>
      if a.value == 0.0 then Err(ZeroDivisionError)
      else Ok(Quantity(Numbers.FloorDiv(x, a.value), U.Pow(a.unit, -1)))
    case Obj(b) =>
      if a.value == 0.0 then Err(ZeroDivisionError)
      else Ok(Quantity(Numbers.FloorDiv(b.value, a.value), U.Div(b.unit, a.unit)))
    case Other => Err(ValueError)
  }

  /** `other % a`: a number keeps `a`'s unit, a Quantity keeps its own. */
  function RMod(a: Quantity, other: Operand<Quantity>): (r: Result<Quantity>)
    ensures r.Ok? <==> !other.Other? && a.value != 0.0
    ensures r.Err? ==> r.error == (if other.Other? then ValueError else ZeroDivisionError)
    ensures r.Ok? ==> r.value.unit == (if other.Num? then a.unit else other.obj.unit)
    ensures r.Ok? ==> r.value.value == Numbers.Mod(ValueOf(other), a.value)
  {
    match other
    case Num(x) =>
      if a.value == 0.0 then Err(ZeroDivisionError) else Ok(Quantity(Numbers.Mod(x, a.value), a.unit))
    case Obj(b) =>
      if a.value == 0.0 then Err(ZeroDivisionError) else Ok(Quantity(Numbers.Mod(b.value, a.value), b.unit))
    case Other => Err(ValueError)
  }

  /** `abs(a)`. */
  function Abs(a: Quantity): (r: Quantity)
    ensures r.unit == a.unit && r.value >= 0.0
    ensures r.value == a.value || r.value == -a.value
  {
    Quantity(if a.value < 0.0 then -a.value else a.value, a.unit)
  }

  /** `-a`, computed as `a * -1`. */
  function Neg(a: Quantity): Quantity {
    Quantity(a.value * -1.0, a.unit)
  }

  /** `+a` returns the quantity itself. */
  function Pos(a: Quantity): Quantity {
    a
  }

  /** `a.__inv__()`: the reciprocal value in the inverse unit. */
  function Inv(a: Quantity): (r: Result<Quantity>)
    ensures r.Ok? <==> a.value != 0.0
    ensures r.Err? ==> r.error == ZeroDivisionError
    ensures r.Ok? ==> r.value.value * a.value == 1.0 && r.value.unit == U.Pow(a.unit, -1)
  {
    if a.value == 0.0 then Err(ZeroDivisionError) else Ok(Quantity(1.0 / a.value, U.Pow(a.unit, -1)))
  }

  // Transcendental functions

  /** The functions of the `math` module that the quantity wraps. */
  datatype Function =
    | Exp | Log | Sin | Cos | Tan | Asin | Acos | Atan | Sinh | Cosh | Tanh
    | Asinh | Acosh | Atanh

  /** The real functions the model takes as given. */
  datatype MathLib = MathLib(
    exp: real -> real, log: real -> real, sqrt: real -> real,
    sin: real -> real, cos: real -> real, tan: real -> real,
    asin: real -> real, acos: real -> real, atan: real -> real,
    sinh: real -> real, cosh: real -> real, tanh: real -> real)

  /** Where the call succeeds: `math.log`, `math.asin` and `math.acos` raise a domain
      error outside these bounds, and acosh and atanh check theirs explicitly. */
  predicate InDomain(f: Function, v: real) {
    match f
    case Log => v > 0.0
    case Asin => -1.0 <= v <= 1.0
    case Acos => -1.0 <= v <= 1.0
    case Acosh => v >= 1.0
    case Atanh => -1.0 < v < 1.0
    case _ => true
  }

  /** The inverse hyperbolic sine through logarithms, odd in `v`. */
  function AsinhOf(v: real, lib: MathLib): real {
    if v >= 0.0 then lib.log(v + lib.sqrt(v * v + 1.0))
    else -lib.log(-v + lib.sqrt(v * v + 1.0))
  }

  /** The value a function returns on an argument in its domain. */
  function Evaluate(f: Function, v: real, lib: MathLib): real
    requires InDomain(f, v)
  {
    match f
    case Exp => lib.exp(v)
    case Log => lib.log(v)
    case Sin => lib.sin(v)
    case Cos => lib.cos(v)
    case Tan => lib.tan(v)
    case Asin => lib.asin(v)
    case Acos => lib.acos(v)
    case Atan => lib.atan(v)
    case Sinh => lib.sinh(v)
    case Cosh => lib.cosh(v)
    case Tanh => lib.tanh(v)
    case Asinh => AsinhOf(v, lib)
    case Acosh => lib.log(v + lib.sqrt(v * v - 1.0))
    case Atanh => 0.5 * lib.log((1.0 + v) / (1.0 - v))
  }

  /** Applying `f` to a quantity: only scalar quantities are accepted (TypeError
      otherwise), an argument outside the domain is a ValueError, and the result keeps
      the operand's unit. */
  function Apply(f: Function, a: Quantity, lib: MathLib): (r: Result<Quantity>)
    ensures r.Ok? <==> IsScalar(a) && InDomain(f, a.value)
    ensures r.Err? ==> r.error == (if IsScalar(a) then ValueError else TypeError)
    ensures r.Ok? ==> r.value.unit == a.unit
  {
    if !IsScalar(a) then Err(TypeError)
    else if !InDomain(f, a.value) then Err(ValueError)
    else Ok(Quantity(Evaluate(f, a.value, lib), a.unit))
  }

  /** asinh as written: for a negative value it takes the logarithm of `-v + sqrt(v*v+1)`
      without negating the result. */
  function AsinhAsWritten(v: real, lib: MathLib): real {
    if v >= 0.0 then lib.log(v + lib.sqrt(v * v + 1.0))
    else lib.log(-v + lib.sqrt(v * v + 1.0))
  }

  /** As written, asinh is an even function: a negative argument gives the same result
      as its absolute value. */
  lemma AsinhAsWrittenIsEven(v: real, lib: MathLib)
    ensures AsinhAsWritten(-v, lib) == AsinhAsWritten(v, lib)
  {
    assert (-v) * (-v) == v * v;
  }

  /** The corrected asinh is odd, as the inverse hyperbolic sine is. */
  lemma AsinhIsOdd(v: real, lib: MathLib)
    requires v != 0.0
    ensures Evaluate(Asinh, -v, lib) == -Evaluate(Asinh, v, lib)
  {
    assert (-v) * (-v) == v * v;
  }

  // Comparisons

  /** `a == other`: a Quantity must match in value and unit, a number in value;
      any other operand is a ValueError. */
  function Eq(a: Quantity, other: Operand<Quantity>): (r: Result<bool>)
    ensures r.Ok? <==> !other.Other?
    ensures r.Err? ==> r.error == ValueError
    ensures r.Ok? && other.Obj? ==> (r.value <==> a.value == other.obj.value && U.Eq(a.unit, other.obj.unit))
    ensures r.Ok? && other.Num? ==> (r.value <==> a.value == other.x)
  {
    match other
    case Obj(b) => Ok(a.value == b.value && U.Eq(a.unit, b.unit))
    case Num(x) => Ok(a.value == x)
    case Other => Err(ValueError)
  }

  function Ne(a: Quantity, other: Operand<Quantity>): Result<bool> {
    match other
    case Obj(b) => Ok(a.value != b.value || !U.Eq(a.unit, b.unit))
    case Num(x) => Ok(a.value != x)
    case Other => Err(ValueError)
  }

  /** The value a comparison compares against: a number, or a Quantity's bare value. */
  function Against(other: Operand<Quantity>): real
    requires !other.Other?
  {
    if other.Num? then other.x else other.obj.value
  }

  function Lt(a: Quantity, other: Operand<Quantity>): Result<bool> {
    if other.Other? then Err(ValueError) else Ok(a.value < Against(other))
  }

  function Le(a: Quantity, other: Operand<Quantity>): Result<bool> {
    if other.Other? then Err(ValueError) else Ok(a.value <= Against(other))
  }

  function Gt(a: Quantity, other: Operand<Quantity>): Result<bool> {
    if other.Other? then Err(ValueError) else Ok(a.value > Against(other))
  }

  function Ge(a: Quantity, other: Operand<Quantity>): Result<bool> {
    if other.Other? then Err(ValueError) else Ok(a.value >= Against(other))
  }

  // Properties

  /** `(a + b) - b == a` whenever `a + b` is defined. */
  lemma SubUndoesAdd(a: Quantity, other: Operand<Quantity>)
    requires Add(a, other).Ok?
    ensures Sub(Add(a, other).value, other) == Ok(a)
  {
  }

  /** `other - a` is the negated difference: for a scalar quantity and a number it is
      `x - a.value`, and between quantities of one unit it is `b.value - a.value`. */
  lemma RSubReversesSub(a: Quantity, other: Operand<Quantity>)
    ensures RSub(a, other).Ok? <==> Addable(a, other)
    ensures other.Num? && IsScalar(a) ==> RSub(a, other) == Ok(Quantity(other.x - a.value, a.unit))
    ensures other.Obj? && other.obj.unit == a.unit ==>
      RSub(a, other) == Ok(Quantity(other.obj.value - a.value, a.unit))
  {
  }

  /** Converting to another unit of the same base and back gives the original quantity. */
  lemma ToRoundTrip(q: Quantity, t: U.Unit)
    requires q.unit.base == t.base
    ensures To(To(q, t).value, q.unit) == Ok(q)
  {
    var f, g := q.unit.prefix.factor, t.prefix.factor;
    var r := To(q, t).value;
    assert r.unit == t;
    assert r.value * g == q.value * f;
    var s := To(r, q.unit).value;
    assert s.value * f == r.value * g;
    assert s.value == q.value;
  }

  /** Dividing a product by the same Quantity gives the value back in an equal unit. */
  lemma DivUndoesMul(a: Quantity, b: Quantity)
    requires b.value != 0.0
    ensures Div(Mul(a, Obj(b)).value, Obj(b)).Ok?
    ensures Div(Mul(a, Obj(b)).value, Obj(b)).value.value == a.value
    ensures U.Eq(Div(Mul(a, Obj(b)).value, Obj(b)).value.unit, a.unit)
  {
    U.DivUndoesMul(a.unit, b.unit);
  }

  /** Squaring is multiplying a quantity by itself, and `a ** q` uses only `q`'s value. */
  lemma PowAgreesWithMul(a: Quantity, e: Quantity)
    requires e.value == e.value.Floor as real
    ensures Pow(a, Num(2.0)) == Mul(a, Obj(a))
    ensures Pow(a, Obj(e)) == Pow(a, Num(e.value))
  {
    U.PowAgreesWithMul(a.unit);
    assert ExponentOf(Num(2.0)) == 2;
    assert Power(a.value, 1) == a.value * Power(a.value, 0);
    assert Power(a.value, 2) == a.value * Power(a.value, 1);
    assert IntPow(a.value, 2) == a.value * a.value;
    var m := Mul(a, Obj(a));
    assert m.value.value == a.value * a.value;
    assert Pow(a, Num(2.0)) == Ok(Quantity(a.value * a.value, U.Pow(a.unit, 2)));
  }

  /** `n // d` and `n % d` fit together: the quotient is an integer, the quotient times
      the divisor plus the remainder is the dividend, the remainder takes the divisor's
      sign and is smaller in size (which pins both down), and the quotient's unit times
      the divisor's unit has the dividend's base. */
  lemma FloorDivModReconstruct(a: Quantity, b: Quantity)
    requires b.value != 0.0
    ensures FloorDiv(a, Obj(b)).value.value == FloorDiv(a, Obj(b)).value.value.Floor as real
    ensures FloorDiv(a, Obj(b)).value.value * b.value + Mod(a, Obj(b)).value.value == a.value
    ensures b.value > 0.0 ==> 0.0 <= Mod(a, Obj(b)).value.value < b.value
    ensures b.value < 0.0 ==> b.value < Mod(a, Obj(b)).value.value <= 0.0
    ensures U.Mul(FloorDiv(a, Obj(b)).value.unit, b.unit).base == a.unit.base
    ensures Mod(a, Obj(b)).value.unit == a.unit
  {
    FloorDivModIdentity(a.value, b.value);
    BQ.DivUndoesMul(a.unit.base, b.unit.base);
  }

  /** Python's remainder takes the divisor's sign, for a number or a Quantity divisor. */
  lemma ModSign(a: Quantity, other: Operand<Quantity>)
    requires !other.Other? && ValueOf(other) != 0.0
    ensures ValueOf(other) > 0.0 ==> 0.0 <= Mod(a, other).value.value < ValueOf(other)
    ensures ValueOf(other) < 0.0 ==> ValueOf(other) < Mod(a, other).value.value <= 0.0
  {
  }

  /** The reflected `other // a` and `other % a` fit together in the same way, with `a`
      as the divisor. */
  lemma ReflectedFloorDivMod(a: Quantity, other: Operand<Quantity>)
    requires !other.Other? && a.value != 0.0
    ensures RFloorDiv(a, other).value.value == RFloorDiv(a, other).value.value.Floor as real
    ensures RFloorDiv(a, other).value.value * a.value + RMod(a, other).value.value == ValueOf(other)
    ensures a.value > 0.0 ==> 0.0 <= RMod(a, other).value.value < a.value
    ensures a.value < 0.0 ==> a.value < RMod(a, other).value.value <= 0.0
  {
    FloorDivModIdentity(ValueOf(other), a.value);
  }

  /** A number over a Quantity is the number times the quantity's inverse; `1 / a` is
      `a.__inv__()`, and `a * (1 / a)` is 1 in a unit equal to the dimensionless one. */
  lemma RDivIsInverse(a: Quantity)
    requires a.value != 0.0
    ensures RDiv(a, Num(1.0)) == Inv(a)
    ensures Mul(a, Obj(Inv(a).value)).value.value == 1.0
    ensures U.Eq(Mul(a, Obj(Inv(a).value)).value.unit, DefaultUnit)
  {
    U.PowInverts(a.unit);
  }

  /** `-a` is `a * -1`, negates the value, keeps the unit, and undoes itself; `abs`
      ignores the sign and `+a` changes nothing. */
  lemma NegNegatesValue(a: Quantity)
    ensures Mul(a, Num(-1.0)) == Ok(Neg(a))
    ensures Neg(a) == Quantity(-a.value, a.unit)
    ensures Neg(Neg(a)) == a
    ensures Abs(Neg(a)) == Abs(a)
    ensures Pos(a) == Quantity(a.value, a.unit)
  {
  }

  /** `!=` is the negation of `==`. */
  lemma NeIsNotEq(a: Quantity, other: Operand<Quantity>)
    ensures Ne(a, other).Ok? <==> Eq(a, other).Ok?
    ensures Ne(a, other).Ok? ==> Ne(a, other).value == !Eq(a, other).value
  {
  }

  /** Ordering compares bare values: quantities of different dimensions are ordered,
      and `<`, `>` are mirror images, even where `==` says the two are unequal. */
  lemma OrderingIgnoresUnits(a: Quantity, b: Quantity)
    ensures Lt(a, Obj(b)) == Ok(a.value < b.value) && Gt(b, Obj(a)) == Lt(a, Obj(b))
    ensures Le(a, Obj(b)) == Ge(b, Obj(a))
    ensures a.value == b.value && a.unit.base != b.unit.base ==>
      Le(a, Obj(b)) == Ok(true) && Ge(a, Obj(b)) == Ok(true) && Eq(a, Obj(b)) == Ok(false)
  {
  }

  /** Comparing with anything other than a number or a Quantity is a ValueError. */
  lemma ComparisonsRejectOtherOperands(a: Quantity)
    ensures Lt(a, Other) == Err(ValueError) && Le(a, Other) == Err(ValueError)
    ensures Gt(a, Other) == Err(ValueError) && Ge(a, Other) == Err(ValueError)
    ensures Eq(a, Other) == Err(ValueError) && Ne(a, Other) == Err(ValueError)
  {
  }
}
