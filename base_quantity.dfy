/** The dimension of a physical quantity: the exponents of the seven SI base
    dimensions, combined componentwise by `*`, `/` and `**`. */
module BaseQuantities {
  import opened Outcomes

  /** Exponents of length (m), time (s), mass (kg), temperature (K), electric current (A),
      substance amount (mol) and luminous intensity (cd), in that order. Exponents are
      reals because `**` accepts floats, so `area ** 0.5` is a length. */
  datatype BaseQuantity = BaseQuantity(
    length: real, time: real, mass: real, temperature: real,
    current: real, substance: real, luminosity: real)

  /** The number of base dimensions and their SI symbols, in constructor order. */
  const Dimensions := 7
  const Symbols: seq<string> := ["m", "s", "kg", "K", "A", "mol", "cd"]

  /** The all-zero base of a dimensionless quantity. */
  const Dimensionless := BaseQuantity(0.0, 0.0, 0.0, 0.0, 0.0, 0.0, 0.0)

  /** The `i`-th exponent, in the order of `Symbols`. */
  function Exponent(b: BaseQuantity, i: nat): real
    requires i < Dimensions
  {
    match i
    case 0 => b.length
    case 1 => b.time
    case 2 => b.mass
    case 3 => b.temperature
    case 4 => b.current
    case 5 => b.substance
    case 6 => b.luminosity
  }

  function Mul(a: BaseQuantity, b: BaseQuantity): BaseQuantity {
    BaseQuantity(a.length + b.length, a.time + b.time, a.mass + b.mass,
      a.temperature + b.temperature, a.current + b.current,
      a.substance + b.substance, a.luminosity + b.luminosity)
  }

  function Div(a: BaseQuantity, b: BaseQuantity): BaseQuantity {
    BaseQuantity(a.length - b.length, a.time - b.time, a.mass - b.mass,
      a.temperature - b.temperature, a.current - b.current,
      a.substance - b.substance, a.luminosity - b.luminosity)
  }

  function Pow(a: BaseQuantity, p: real): BaseQuantity {
    BaseQuantity(a.length * p, a.time * p, a.mass * p, a.temperature * p,
      a.current * p, a.substance * p, a.luminosity * p)
  }

  /** `a * other`: only another BaseQuantity is accepted. */
  function MulBy(a: BaseQuantity, other: Operand<BaseQuantity>): (r: Result<BaseQuantity>)
    ensures r.Ok? <==> other.Obj?
    ensures r.Err? ==> r.error == TypeError
    ensures r.Ok? ==> forall i :: 0 <= i < Dimensions ==>
      Exponent(r.value, i) == Exponent(a, i) + Exponent(other.obj, i)
  {
    if other.Obj? then Ok(Mul(a, other.obj)) else Err(TypeError)
  }

  /** `a / other`: only another BaseQuantity is accepted. */
  function DivBy(a: BaseQuantity, other: Operand<BaseQuantity>): (r: Result<BaseQuantity>)
    ensures r.Ok? <==> other.Obj?
    ensures r.Err? ==> r.error == TypeError
    ensures r.Ok? ==> forall i :: 0 <= i < Dimensions ==>
      Exponent(r.value, i) == Exponent(a, i) - Exponent(other.obj, i)
  {
    if other.Obj? then Ok(Div(a, other.obj)) else Err(TypeError)
  }

  /** `a ** power`: only an int or a float is accepted. */
  function PowBy(a: BaseQuantity, power: Operand<BaseQuantity>): (r: Result<BaseQuantity>)
    ensures r.Ok? <==> power.Num?
    ensures r.Err? ==> r.error == TypeError
    ensures r.Ok? ==> forall i :: 0 <= i < Dimensions ==>
      Exponent(r.value, i) == Exponent(a, i) * power.x
  {
    if power.Num? then Ok(Pow(a, power.x)) else Err(TypeError)
  }

  /** `*` adds the seven exponents componentwise. */
  lemma MulAddsExponents(a: BaseQuantity, b: BaseQuantity, i: nat)
    requires i < Dimensions
    ensures Exponent(Mul(a, b), i) == Exponent(a, i) + Exponent(b, i)
  {
  }

  /** `/` undoes `*`. */
  lemma DivUndoesMul(a: BaseQuantity, b: BaseQuantity)
    ensures Div(Mul(a, b), b) == a
    ensures Mul(Div(a, b), b) == a
  {
  }

  /** `/` is `*` by the inverse dimension. */
  lemma DivIsMulByInverse(a: BaseQuantity, b: BaseQuantity)
    ensures Div(a, b) == Mul(a, Pow(b, -1.0))
  {
  }

  /** `*` is commutative and associative, with the dimensionless base as identity. */
  lemma MulIsCommutativeMonoid(a: BaseQuantity, b: BaseQuantity, c: BaseQuantity)
    ensures Mul(a, b) == Mul(b, a)
    ensures Mul(Mul(a, b), c) == Mul(a, Mul(b, c))
    ensures Mul(a, Dimensionless) == a
  {
  }

  /** `a ** 1 == a` and `a ** 0` is dimensionless. */
  lemma PowUnitAndZero(a: BaseQuantity)
    ensures Pow(a, 1.0) == a
    ensures Pow(a, 0.0) == Dimensionless
  {
  }

  /** `a * a ** -1` is dimensionless. */
  lemma InverseCancels(a: BaseQuantity)
    ensures Mul(a, Pow(a, -1.0)) == Dimensionless
  {
  }

  /** `**` distributes over `*`. */
  lemma PowDistributes(a: BaseQuantity, b: BaseQuantity, p: real)
    ensures Pow(Mul(a, b), p) == Mul(Pow(a, p), Pow(b, p))
  {
  }

  /** A power of a power multiplies the powers. */
  lemma PowOfPow(a: BaseQuantity, p: real, q: real)
    ensures Pow(Pow(a, p), q) == Pow(a, p * q)
  {
  }

  /** A sum of powers is a product of powers. */
  lemma PowOfSum(a: BaseQuantity, p: real, q: real)
    ensures Pow(a, p + q) == Mul(Pow(a, p), Pow(a, q))
  {
  }

  /** Two bases are equal exactly when all seven exponents are. */
  lemma EqualIffExponentsEqual(a: BaseQuantity, b: BaseQuantity)
    ensures a == b <==> forall i :: 0 <= i < Dimensions ==> Exponent(a, i) == Exponent(b, i)
  {
    if forall i :: 0 <= i < Dimensions ==> Exponent(a, i) == Exponent(b, i) {
      assert Exponent(a, 0) == Exponent(b, 0) && Exponent(a, 1) == Exponent(b, 1);
      assert Exponent(a, 2) == Exponent(b, 2) && Exponent(a, 3) == Exponent(b, 3);
      assert Exponent(a, 4) == Exponent(b, 4) && Exponent(a, 5) == Exponent(b, 5);
      assert Exponent(a, 6) == Exponent(b, 6);
    }
  }

  /** One entry of the repr: nothing for a zero exponent, `sym ` for exponent 1 and
      `sym^e ` otherwise, where `show` formats the exponent as Python's `str` would. */
  function Term(symbol: string, e: real, show: real -> string): string {
    if e == 0.0 then "" else if e == 1.0 then symbol + " " else symbol + "^" + show(e) + " "
  }

  /** The entries for dimensions `i` onwards. */
  function ReprFrom(b: BaseQuantity, show: real -> string, i: nat): string
    requires i <= Dimensions
    decreases Dimensions - i
  {
    if i == Dimensions then "" else Term(Symbols[i], Exponent(b, i), show) + ReprFrom(b, show, i + 1)
  }

  /** The repr of a base: its non-zero exponents in the order m s kg K A mol cd. */
  function Repr(b: BaseQuantity, show: real -> string): string {
    ReprFrom(b, show, 0)
  }

  /** A dimension whose exponents from `i` on are all zero contributes nothing. */
  lemma {:induction false} ReprFromOfZeros(b: BaseQuantity, show: real -> string, i: nat)
    requires i <= Dimensions
    requires forall k :: i <= k < Dimensions ==> Exponent(b, k) == 0.0
    ensures ReprFrom(b, show, i) == ""
    decreases Dimensions - i
  {
    if i < Dimensions {
      ReprFromOfZeros(b, show, i + 1);
    }
  }

  /** A base with a single exponent 1 shows only that dimension's symbol. */
  lemma {:induction false} ReprOfUnitVector(b: BaseQuantity, show: real -> string, k: nat)
    requires k < Dimensions
    requires forall i :: 0 <= i < Dimensions ==> Exponent(b, i) == (if i == k then 1.0 else 0.0)
    ensures Repr(b, show) == Symbols[k] + " "
  {
    ReprFromOfZeros(b, show, k + 1);
    var i := k;
    while i > 0
      invariant 0 <= i <= k
      invariant ReprFrom(b, show, i) == Symbols[k] + " "
      decreases i
    {
      i := i - 1;
      assert Term(Symbols[i], Exponent(b, i), show) == "";
    }
  }

  /** The decimal digits of a natural number. */
  function NatText(n: nat): (s: string)
    ensures |s| > 0
    decreases n
  {
    var digit := ["0", "1", "2", "3", "4", "5", "6", "7", "8", "9"][n % 10];
    if n < 10 then digit else NatText(n / 10) + digit
  }

  /** How Python's `str` prints an integer exponent such as `-1` or `2`. */
  function IntegralText(e: real): string {
    var n := e.Floor;
    if n < 0 then "-" + NatText(-n) else NatText(n)
  }

  /** The repr of the velocity dimension length / time. */
  lemma ReprOfVelocity()
    ensures Repr(BaseQuantity(1.0, -1.0, 0.0, 0.0, 0.0, 0.0, 0.0), IntegralText) == "m s^-1 "
  {
    var b := BaseQuantity(1.0, -1.0, 0.0, 0.0, 0.0, 0.0, 0.0);
    ReprFromOfZeros(b, IntegralText, 2);
    assert IntegralText(-1.0) == "-1";
  }

  /** The dimensionless base has an empty repr. */
  lemma ReprOfDimensionless(show: real -> string)
    ensures Repr(Dimensionless, show) == ""
  {
    ReprFromOfZeros(Dimensionless, show, 0);
  }
}
