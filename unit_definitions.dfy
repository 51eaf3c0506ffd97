/** The named units: the SI base units, the derived units with their own symbols, the
    decimal multiples of the metre and the imperial lengths. */
module UnitDefinitions {
  import opened Outcomes
  import BQ = BaseQuantities
  import P = Prefixes
  import U = Units
  import Q = Quantities
  import Basis
  import Numbers

  // SI base units: the base dimension with `Prefix(1)` and no symbol of their own.
  const m := U.Of(Basis.length, P.One)
  const s := U.Of(Basis.time, P.One)
  const kg := U.Of(Basis.mass, P.One)
  const K := U.Of(Basis.temperature, P.One)
  const A := U.Of(Basis.electricCurrent, P.One)
  const mol := U.Of(Basis.substanceAmount, P.One)
  const cd := U.Of(Basis.luminousIntensity, P.One)

  // Derived units with a symbol of their own.
  const rad := U.Unit(Basis.scalar, P.One, Some("rad"))
  const sr := U.Unit(BQ.BaseQuantity(0.0, 0.0, 0.0, 0.0, 0.0, 0.0, 0.0), P.One, Some("sr"))
  const Hz := U.Unit(BQ.Pow(Basis.time, -1.0), P.One, Some("Hz"))
  const N := U.Unit(BQ.BaseQuantity(1.0, -2.0, 1.0, 0.0, 0.0, 0.0, 0.0), P.One, Some("N"))
  const Pa := U.Unit(BQ.BaseQuantity(-1.0, -2.0, 1.0, 0.0, 0.0, 0.0, 0.0), P.One, Some("Pa"))
  const J := U.Unit(BQ.BaseQuantity(2.0, -2.0, 1.0, 0.0, 0.0, 0.0, 0.0), P.One, Some("J"))
  const W := U.Unit(BQ.BaseQuantity(2.0, -3.0, 1.0, 0.0, 0.0, 0.0, 0.0), P.One, Some("W"))
  const C := U.Unit(BQ.BaseQuantity(0.0, 1.0, 0.0, 0.0, 1.0, 0.0, 0.0), P.One, Some("C"))
  const V := U.Unit(BQ.BaseQuantity(2.0, -3.0, 1.0, 0.0, -1.0, 0.0, 0.0), P.One, Some("V"))
  const F := U.Unit(BQ.BaseQuantity(-2.0, 4.0, -1.0, 0.0, 2.0, 0.0, 0.0), P.One, Some("F"))

  // Decimal multiples of the metre.
  const km := U.Of(Basis.length, P.FromFactor(1000.0))
  const hm := U.Of(Basis.length, P.FromFactor(100.0))
  const dam := U.Of(Basis.length, P.FromFactor(10.0))
  const dm := U.Of(Basis.length, P.FromFactor(0.1))
  const cm := U.Of(Basis.length, P.FromFactor(0.01))
  const mm := U.Of(Basis.length, P.FromFactor(0.001))
  const um := U.Of(Basis.length, P.FromFactor(0.000001))
  const nm := U.Of(Basis.length, P.FromFactor(0.000000001))
  const pm := U.Of(Basis.length, P.FromFactor(0.000000000001))

  /** The multiples in declaration order, with their factors relative to the metre. */
  const Multiples: seq<(U.Unit, real)> := [
    (km, 1000.0), (hm, 100.0), (dam, 10.0), (dm, 0.1), (cm, 0.01), (mm, 0.001),
    (um, 0.000001), (nm, 0.000000001), (pm, 0.000000000001)
  ]

  // Imperial lengths: a length with the conversion ratio to the metre as its prefix.
  const ft := U.Unit(Basis.length, P.FromFactor(0.3048), Some("ft"))
  const yd := U.Unit(Basis.length, P.FromFactor(0.9144), Some("yd"))
  /** The mile and nautical mile as declared, with ratios written in hundredths of a
      metre like the foot and the yard, which makes them a hundred times too small. */
  const mi := U.Unit(Basis.length, P.FromFactor(16.09344), Some("mi"))
  const nmi := U.Unit(Basis.length, P.FromFactor(18.52), Some("nmi"))

  /** The evidently intended international mile, 1760 yards. */
  const miIntended := U.Unit(Basis.length, P.FromFactor(1609.344), Some("mi"))
  /** The evidently intended international nautical mile, 1852 metres. */
  const nmiIntended := U.Unit(Basis.length, P.FromFactor(1852.0), Some("nmi"))

  const m2 := U.Of(Basis.area, P.One)

  /** The metre and the second show their SI symbols, taken from the repr of their
      bases. */
  lemma BaseUnitSymbols(show: real -> string)
    ensures U.Symbol(m, show) == "m "
    ensures U.Symbol(s, show) == "s "
  {
    Basis.BaseConstantsAreUnitVectors();
    assert Basis.BaseConstants[0] == m.base && Basis.BaseConstants[1] == s.base;
    BQ.ReprOfUnitVector(m.base, show, 0);
    BQ.ReprOfUnitVector(s.base, show, 1);
  }

  /** Radian and steradian compare equal although their symbols differ. */
  lemma RadianEqualsSteradian()
    ensures U.Eq(rad, sr) && rad != sr
  {
  }

  /** The hertz is the inverse second. */
  lemma HertzIsInverseSecond()
    ensures Hz.base == BQ.BaseQuantity(0.0, -1.0, 0.0, 0.0, 0.0, 0.0, 0.0)
    ensures U.Eq(Hz, U.Pow(s, -1))
  {
    Numbers.IntPowUnitExponents(1.0);
  }

  /** The derived units carry exactly the dimensions the basis composes. */
  lemma DerivedUnitsMatchBasis()
    ensures N.base == Basis.force && Pa.base == Basis.pressure
    ensures J.base == Basis.energy && W.base == Basis.power
    ensures C.base == Basis.electricCharge && V.base == Basis.voltage
    ensures F.base == Basis.capacitance
  {
    Basis.ForceExponents();
    Basis.PressureExponents();
    Basis.EnergyExponents();
    Basis.PowerExponents();
    Basis.VoltageExponents();
    Basis.ElectricalExponents();
  }

  /** A joule is a newton times a metre. */
  lemma JouleIsNewtonMetre()
    ensures U.Eq(U.Mul(N, m), J)
  {
    assert BQ.Mul(N.base, m.base) == J.base;
  }

  /** A watt is a joule per second. */
  lemma WattIsJoulePerSecond()
    ensures U.Eq(U.Div(J, s), W)
  {
    assert BQ.Div(J.base, s.base) == W.base;
  }

  /** Every multiple of the metre is a length that differs from the metre, and one of
      it converts to the metre by its factor. */
  lemma MultiplesConvertToMetre(k: nat)
    requires k < |Multiples|
    ensures Multiples[k].0.base == m.base
    ensures !U.Eq(Multiples[k].0, m)
    ensures Q.To(Q.Quantity(1.0, Multiples[k].0), m) == Ok(Q.Quantity(Multiples[k].1, m))
  {
    assert Multiples[k].0.prefix.factor == Multiples[k].1;
  }

  /** The multiples pick up their SI prefix symbols, which show in their repr. */
  lemma MultiplePrefixSymbols(show: real -> string)
    ensures km.prefix.symbol == Some("k") && dam.prefix.symbol == Some("da")
    ensures mm.prefix.symbol == Some("m")
    ensures U.Repr(km, show) == "[k]m "
  {
    P.SymbolOfEntry(7);
    P.SymbolOfEntry(9);
    P.SymbolOfEntry(12);
    BaseUnitSymbols(show);
    assert U.Symbol(km, show) == U.Symbol(m, show);
    assert "[" + "k" + "]" + "m " == "[k]m ";
  }

  /** No table entry has one of the imperial ratios, as declared or as intended, as its
      multiplier. */
  lemma NotAMultiplier(f: real)
    requires f == 0.3048 || f == 0.9144 || f == 16.09344 || f == 18.52 || f == 1609.344 || f == 1852.0
    ensures P.SymbolFor(f) == None
  {
    P.SymbolFromFinds(f, 0);
  }

  /** The imperial ratios are not table multipliers, so these prefixes have no symbol,
      as declared and as intended. */
  lemma ImperialPrefixesHaveNoSymbol()
    ensures ft.prefix.symbol == None && yd.prefix.symbol == None
    ensures mi.prefix.symbol == None && nmi.prefix.symbol == None
    ensures miIntended.prefix.symbol == None && nmiIntended.prefix.symbol == None
  {
    NotAMultiplier(0.3048);
    NotAMultiplier(0.9144);
    NotAMultiplier(16.09344);
    NotAMultiplier(18.52);
    NotAMultiplier(1609.344);
    NotAMultiplier(1852.0);
  }

  /** So the foot prints `None` in the brackets. */
  lemma FootShowsNone()
    ensures forall show: real -> string :: U.Repr(ft, show) == "[None]ft"
  {
    NotAMultiplier(0.3048);
    assert "[" + "None" + "]" + "ft" == "[None]ft";
  }

  /** As declared, a mile converts to 16.09344 metres instead of 1609.344, and is not
      1760 yards; the nautical mile is 18.52 metres instead of 1852. */
  lemma MileAsWrittenIsTooShort()
    ensures Q.To(Q.Quantity(1.0, mi), m) == Ok(Q.Quantity(16.09344, m))
    ensures Q.To(Q.Quantity(1.0, nmi), m) == Ok(Q.Quantity(18.52, m))
    ensures mi.prefix.factor != 1760.0 * yd.prefix.factor
  {
  }

  /** The corrected mile is 1760 yards, 5280 feet and 1609.344 metres, and the nautical
      mile 1852 metres. */
  lemma MileIsSeventeenHundredSixtyYards()
    ensures miIntended.prefix.factor == 1760.0 * yd.prefix.factor
    ensures miIntended.prefix.factor == 5280.0 * ft.prefix.factor
    ensures Q.To(Q.Quantity(1.0, miIntended), yd) == Ok(Q.Quantity(1760.0, yd))
    ensures Q.To(Q.Quantity(1.0, miIntended), m) == Ok(Q.Quantity(1609.344, m))
    ensures Q.To(Q.Quantity(1.0, nmiIntended), m) == Ok(Q.Quantity(1852.0, m))
  {
  }

  /** Adding and subtracting a millimetre to two metres keeps the metre. */
  lemma MetrePlusMillimetre()
    ensures Q.Add(Q.Quantity(2.0, m), Obj(Q.Quantity(1.0, mm))) == Ok(Q.Quantity(2.001, m))
    ensures Q.Sub(Q.Quantity(2.0, m), Obj(Q.Quantity(1.0, mm))) == Ok(Q.Quantity(1.999, m))
    ensures Q.Add(Q.Quantity(1.0, mm), Obj(Q.Quantity(1.0, m))) == Ok(Q.Quantity(1001.0, mm))
  {
    assert !P.Eq(m.prefix, mm.prefix);
  }

  /** Products and quotients of quantities multiply and divide values and units. */
  lemma MetreTimesSecond()
    ensures Q.Mul(Q.Quantity(2.0, m), Obj(Q.Quantity(3.0, s))) == Ok(Q.Quantity(6.0, U.Mul(m, s)))
    ensures Q.Div(Q.Quantity(2.0, m), Obj(Q.Quantity(3.0, s))) == Ok(Q.Quantity(2.0 / 3.0, U.Div(m, s)))
  {
  }

  /** Three metres squared is nine square metres. */
  lemma SquareMetre()
    ensures Q.Pow(Q.Quantity(3.0, m), Num(2.0)) == Ok(Q.Quantity(9.0, U.Pow(m, 2)))
    ensures Q.Eq(Q.Quantity(9.0, U.Pow(m, 2)), Obj(Q.Quantity(9.0, m2))) == Ok(true)
  {
    Numbers.IntPowUnitExponents(3.0);
    Numbers.IntPowUnitExponents(1.0);
    Basis.AreaExponents();
    assert Q.ExponentOf(Num(2.0)) == 2;
  }
}
