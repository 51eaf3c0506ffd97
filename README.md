# scippy core in Dafny

This project models two parts of scippy and proves properties of them. The first is the dimension and unit algebra of its physics package. The second is the reverse-mode automatic differentiation graph of its mathematics package. It also models the closed-interval membership test that guards curve domains.

**Dimension and unit algebra.** These are value types built on one another.
- `BaseQuantities` is a dimension: seven exponents, for metre, second, kilogram, kelvin, ampere, mole and candela. `*`, `/` and `**` combine them componentwise.
- `Prefixes` is a positive scale factor. Its symbol is looked up in the SI prefix table by a for/else scan, which is modelled as a loop.
- `Units` is a base, a prefix and an optional given symbol.
- `Quantities` is a value in a unit. It has the arithmetic operators, including the reflected ones, plus `to`, the unary operators, the guarded math functions and the comparisons. The earlier Quantity class under `measurements` behaves the same on every operation it shares, so it is modelled by the same members.
- `Basis` and `UnitDefinitions` hold the constant tables of composed dimensions and named units.

**Automatic differentiation.**
- `AutoDiff` models the computation graph as an arena. Node `k` is `nodes[k]`, and its inputs are older nodes. Every operator appends a node whose value is computed at once; the `Graph` class holds the arena. Each op has its local gradient rule.
- `Topology` is the post-order depth-first topological sort with its visited set. `Visit` is `topo_sort_dfs`: it takes the visited set and the order it adds to and returns them updated.
- `Backprop` is `gradients`, a loop over the reversed order that accumulates contributions in a dictionary. It is proved to compute each requested node's adjoint. The adjoint is defined independently of any traversal: the loss's seed plus what every consumer the loss depends on passes back, given that consumer's own adjoint.

**Interval.** `Intervals` models `Interval.contains` on a number, an array, a graph node and a list.

Numbers are reals. Python's floor division and modulo are written out in `Numbers`, with the remainder taking the divisor's sign. Errors the Python code raises are `Err` values, as in `TypeError`, `ValueError`, `ZeroDivisionError` and `AttributeError`.

## Model

| member | source | states |
|---|---|---|
| Numbers.FloorDiv | src/physics/quantity.py:167-172 | `a // b` is the integer `n` with `n <= a / b < n + 1` |
| Numbers.Mod | src/physics/quantity.py:174-179 | `a % b` lies in `[0, b)` for `b > 0` and in `(b, 0]` for `b < 0` |
| Numbers.FloorDivModIdentity | src/physics/quantity.py:167-179 | `b * (a // b) + a % b == a` |
| BaseQuantities.MulBy | src/physics/measurements/base_quantity.py:45-64 | accepted exactly for a BaseQuantity operand, otherwise TypeError; each of the seven exponents is the sum of the operands' exponents |
| BaseQuantities.DivBy | src/physics/measurements/base_quantity.py:66-85 | accepted exactly for a BaseQuantity operand, otherwise TypeError; each exponent is the difference |
| BaseQuantities.PowBy | src/physics/measurements/base_quantity.py:87-107 | accepted exactly for an int or float power, otherwise TypeError; each exponent is multiplied by the power |
| BaseQuantities.MulAddsExponents | src/physics/measurements/base_quantity.py:45-62 | the `i`-th exponent of a product is the sum of the `i`-th exponents |
| BaseQuantities.DivUndoesMul | src/physics/measurements/base_quantity.py:66-83 | `(a * b) / b == a` and `(a / b) * b == a` |
| BaseQuantities.DivIsMulByInverse | src/physics/measurements/base_quantity.py:66-105 | `a / b == a * b ** -1` |
| BaseQuantities.MulIsCommutativeMonoid | src/physics/measurements/base_quantity.py:45-62 | `*` is commutative and associative, with the all-zero base as identity |
| BaseQuantities.PowUnitAndZero | src/physics/measurements/base_quantity.py:87-105 | `a ** 1 == a` and `a ** 0` is all-zero |
| BaseQuantities.InverseCancels | src/physics/measurements/base_quantity.py:45-105 | `a * a ** -1` is all-zero |
| BaseQuantities.PowDistributes | src/physics/measurements/base_quantity.py:87-105 | `(a * b) ** p == a ** p * b ** p` |
| BaseQuantities.PowOfPow | src/physics/measurements/base_quantity.py:87-105 | `(a ** p) ** q == a ** (p * q)` |
| BaseQuantities.PowOfSum | src/physics/measurements/base_quantity.py:87-105 | `a ** (p + q) == a ** p * a ** q` |
| BaseQuantities.EqualIffExponentsEqual | src/physics/measurements/base_quantity.py:109-111 | two bases are equal exactly when all seven exponents are |
| BaseQuantities.ReprFromOfZeros | src/physics/measurements/base_quantity.py:35-40 | zero exponents contribute nothing to the repr |
| BaseQuantities.ReprOfUnitVector | src/physics/measurements/base_quantity.py:35-40 | a base with a single exponent 1 shows only that dimension's symbol, without `^1` |
| BaseQuantities.ReprOfVelocity | src/physics/measurements/base_quantity.py:35-40 | length over time shows as `m s^-1 `, in the fixed symbol order |
| BaseQuantities.ReprOfDimensionless | src/physics/measurements/base_quantity.py:35-40 | the all-zero base shows as the empty string |
| Prefixes.New | src/physics/measurements/prefix.py:35-47 | the factor is kept; the symbol is None exactly when no table multiplier equals the factor, and otherwise is the key of an entry with that multiplier |
| Prefixes.SymbolFromFinds | src/physics/measurements/prefix.py:42-47 | the scan from a position finds a symbol exactly when a later entry has the factor as multiplier, and the symbol found is that entry's key |
| Prefixes.TableFactorsDistinct | src/physics/measurements/prefix.py:8-29 | the twenty table multipliers are pairwise distinct |
| Prefixes.SymbolOfEntry | src/physics/measurements/prefix.py:8-29 | every table multiplier looks up its own key, so the symbol is unique |
| Prefixes.OneHasNoSymbol | src/physics/measurements/prefix.py:50-53 | `Prefix(1)` has no symbol, and its repr is not a string (TypeError) |
| Prefixes.KiloAndMilli | src/physics/measurements/prefix.py:8-29 | 1000 is `k`, 0.001 is `m`, `Prefix(1) / k == m`, `k * m == Prefix(1)`, and `k` shows as `[k]` |
| Prefixes.Repr | src/physics/measurements/prefix.py:50-53 | `[sym]` exactly when a symbol was found, otherwise TypeError |
| Prefixes.EqIsEquality | src/physics/measurements/prefix.py:84-86 | for constructed prefixes, comparing factors coincides with full equality; symbols play no part |
| Prefixes.MulDivInverse | src/physics/measurements/prefix.py:57-73 | `(p * q) / q == p`, `p * Prefix(1) == p`, and `*` commutes |
| Prefixes.PowSmallExponents | src/physics/measurements/prefix.py:75-82 | `p ** 1 == p`, `p ** 2 == p * p`, `p ** -1 == Prefix(1) / p` |
| Units.Make | src/physics/unit.py:14-31 | TypeError exactly when the base is not a BaseQuantity or a given prefix is not a Prefix; the prefix defaults to `Prefix(1)` and the given symbol is kept |
| Units.MulBy | src/physics/unit.py:50-61 | accepted exactly for a Unit, otherwise TypeError; bases multiply and prefix factors multiply |
| Units.DivBy | src/physics/unit.py:63-74 | accepted exactly for a Unit, otherwise TypeError; bases divide and the result's factor times the divisor's is the dividend's |
| Units.PowBy | src/physics/unit.py:76-87 | accepted exactly for a number, otherwise TypeError; base and prefix are raised independently |
| Units.EqIgnoresSymbol | src/physics/unit.py:89-96 | units that differ only in their symbols are equal |
| Units.EqIsEquivalence | src/physics/unit.py:89-96 | unit equality is reflexive, symmetric and transitive |
| Units.OperationsRespectEq | src/physics/unit.py:58-72 | `*` and `/` on equal operands give identical results |
| Units.DivUndoesMul | src/physics/unit.py:63-74 | `(u * v) / v == u` |
| Units.PowAgreesWithMul | src/physics/unit.py:58-87 | `u ** 2 == u * u` |
| Units.PowInverts | src/physics/unit.py:58-87 | `u * u ** -1` equals the dimensionless unit |
| Units.DerivedSymbolIsBaseRepr | src/physics/unit.py:33 | a unit built by `*` or `/` has no given symbol and shows its base's repr |
| Units.ReprShowsPrefix | src/physics/unit.py:36-45 | the repr is the bare symbol when the factor is 1, otherwise `[prefix symbol]symbol` |
| Quantities.To | src/physics/quantity.py:151-163 | ValueError exactly on a base mismatch; otherwise the unit is the target and value times target factor equals old value times old factor; the earlier class at src/physics/measurements/quantity.py:154-166 converts by the same rule |
| Quantities.Add | src/physics/quantity.py:33-57 | defined exactly for a number beside an all-zero base, or for a Quantity of the same base; the left unit is kept and the right operand is first converted to it; AttributeError for other operands, TypeError otherwise; the earlier class at src/physics/measurements/quantity.py:32-53 adds by the same rule |
| Quantities.Sub | src/physics/quantity.py:60-81 | the same operand rules as `+`, subtracting the converted right operand; the earlier class at src/physics/measurements/quantity.py:56-77 subtracts by the same rule |
| Quantities.Mul | src/physics/quantity.py:87-104 | ValueError exactly for a non-number, non-Quantity operand; a number scales the value and keeps the unit; a Quantity gives the product of the values in the product unit |
| Quantities.Div | src/physics/quantity.py:107-121 | ZeroDivisionError exactly for a zero divisor, ValueError for other operands; the quotient times the divisor is the dividend; a number keeps the unit, a Quantity gives the quotient unit |
| Quantities.RDiv | src/physics/quantity.py:123-131 | `x / q` has value with `value * q.value == x`; a number gives unit `q.unit ** -1`, a Quantity `other.unit / q.unit` |
| Quantities.Pow | src/physics/quantity.py:134-148 | TypeError for a non-number, non-Quantity exponent, ZeroDivisionError for zero to a negative power; value and unit are raised to the exponent, a Quantity exponent contributing its value |
| Quantities.FloorDiv | src/physics/quantity.py:167-172 | ZeroDivisionError for a zero divisor and ValueError for other operands; the value is Python's floor of the quotient; a number keeps the unit, a Quantity divides the units |
| Quantities.Mod | src/physics/quantity.py:174-179 | ZeroDivisionError for a zero divisor and ValueError for other operands; the value is Python's remainder, with the divisor's sign; the remainder keeps the left unit |
| Quantities.RFloorDiv | src/physics/quantity.py:182-187 | ZeroDivisionError when the quantity is zero and ValueError for other operands; the value is the floor of the operand over the quantity; a number gives the inverse unit, a Quantity the quotient unit |
| Quantities.RMod | src/physics/quantity.py:189-194 | ZeroDivisionError when the quantity is zero and ValueError for other operands; the value is the operand's remainder by the quantity; a number keeps the quantity's unit, a Quantity its own |
| Quantities.Abs | src/physics/quantity.py:197-198 | the unit is kept; the value is non-negative and is the value or its negation |
| Quantities.Inv | src/physics/quantity.py:209-210 | ZeroDivisionError exactly for zero; otherwise the value is the reciprocal and the unit is `unit ** -1` |
| Quantities.Apply | src/physics/quantity.py:213-302 | a math function succeeds exactly on an all-zero base within its domain; TypeError for other bases, ValueError outside the domain; the unit is kept; `asinh` is the corrected odd one |
| Quantities.AsinhAsWrittenIsEven | src/physics/quantity.py:279-285 | as written, asinh gives the same result for `-v` as for `v` |
| Quantities.AsinhIsOdd | src/physics/quantity.py:279-285 | the corrected asinh satisfies `asinh(-v) == -asinh(v)` |
| Quantities.Eq | src/physics/quantity.py:321-326 | ValueError exactly for other operands; true exactly when the values and units are equal, or the value equals the number; the earlier class at src/physics/measurements/quantity.py:229-234 compares by the same rule |
| Quantities.SubUndoesAdd | src/physics/quantity.py:33-81 | `(a + x) - x == a` whenever `a + x` is defined |
| Quantities.RSubReversesSub | src/physics/quantity.py:83-84 | `x - a` is defined exactly when `a - x` is, and is `x - a.value` in `a`'s unit |
| Quantities.ToRoundTrip | src/physics/quantity.py:159-163 | `q.to(t).to(q.unit) == q` |
| Quantities.DivUndoesMul | src/physics/quantity.py:95-119 | `(a * b) / b` has `a`'s value in a unit equal to `a`'s |
| Quantities.PowAgreesWithMul | src/physics/quantity.py:142-146 | `a ** 2 == a * a`, and `a ** q` uses only `q`'s value |
| Quantities.FloorDivModReconstruct | src/physics/quantity.py:167-179 | for a Quantity divisor, `a // b` is an integer, `(a // b) * b + a % b == a`, and the remainder takes `b`'s sign and is smaller in size, which determines both; the quotient unit times the divisor unit has the dividend's base |
| Quantities.ModSign | src/physics/quantity.py:174-179 | the remainder by a number or a Quantity takes the divisor's sign and is smaller in size |
| Quantities.ReflectedFloorDivMod | src/physics/quantity.py:182-194 | the reflected `other // a` is an integer, times `a` plus `other % a` gives the operand back, and the remainder takes `a`'s sign and is smaller in size |
| Quantities.RDivIsInverse | src/physics/quantity.py:123-131 | `1 / a == a.__inv__()`, and `a * (1 / a)` is 1 in a unit equal to the dimensionless one |
| Quantities.NegNegatesValue | src/physics/measurements/quantity.py:201-210 | `-a` is `a * -1`, negates the value, keeps the unit and undoes itself; `abs` ignores the sign and `+a` has the same value and unit |
| Quantities.NeIsNotEq | src/physics/quantity.py:329-334 | `!=` is the negation of `==` |
| Quantities.OrderingIgnoresUnits | src/physics/quantity.py:337-367 | `<`, `<=`, `>`, `>=` compare bare values, so quantities of different dimensions compare `<=` and `>=` while `==` says they differ |
| Quantities.ComparisonsRejectOtherOperands | src/physics/quantity.py:321-367 | every comparison with a non-number, non-Quantity raises ValueError |
| Basis.ScalarIsIdentity | src/physics/basis/definitions.py:11 | `scalar` is all-zero and the identity of `*` |
| Basis.BaseConstantsAreUnitVectors | src/physics/basis/definitions.py:12-18 | the seven base constants are the unit vectors, in constructor-argument order |
| Basis.KinematicExponents | src/physics/basis/definitions.py:22-25 | velocity is (1,-1,0,...), acceleration (1,-2,0,...), momentum (1,-1,1,...) |
| Basis.AngleIsScalar | src/physics/basis/definitions.py:29-30 | an angle is dimensionless and angular velocity is `time ** -1` |
| Basis.AreaExponents | src/physics/basis/definitions.py:33-34 | area is length squared and volume length cubed |
| Basis.ForceExponents | src/physics/basis/definitions.py:37 | force is (1,-2,1,0,0,0,0) |
| Basis.EnergyExponents | src/physics/basis/definitions.py:38-41 | energy is (2,-2,1,...), and torque has the same dimension |
| Basis.PowerExponents | src/physics/basis/definitions.py:39 | power is (2,-3,1,...) |
| Basis.PressureExponents | src/physics/basis/definitions.py:40 | pressure is (-1,-2,1,0,0,0,0) |
| Basis.VoltageExponents | src/physics/basis/definitions.py:45 | voltage is (2,-3,1,0,-1,0,0) |
| Basis.ElectricalExponents | src/physics/basis/definitions.py:44-48 | charge is (0,1,0,0,1,0,0), capacitance (-2,4,-1,0,2,0,0), and resistance times conductance is `scalar` |
| Basis.PressureFormsAgree | src/physics/measurements/basis/definitions.py:26 | the earlier basis's `force / length ** 2` is the same pressure |
| UnitDefinitions.BaseUnitSymbols | src/physics/units/definitions.py:12-18 | the metre and the second show `m` and `s`, taken from their bases |
| UnitDefinitions.RadianEqualsSteradian | src/physics/units/definitions.py:21-22 | `rad == sr` although the two differ in symbol |
| UnitDefinitions.HertzIsInverseSecond | src/physics/units/definitions.py:23 | the hertz has base (0,-1,0,...) and equals `s ** -1` |
| UnitDefinitions.DerivedUnitsMatchBasis | src/physics/units/definitions.py:24-30 | the bases of N, Pa, J, W, C, V and F are the basis force, pressure, energy, power, charge, voltage and capacitance; the earlier table at src/physics/measurements/units/definitions.py:24-30 declares the same bases |
| UnitDefinitions.JouleIsNewtonMetre | src/physics/units/definitions.py:24-26 | `N * m == J` |
| UnitDefinitions.WattIsJoulePerSecond | src/physics/units/definitions.py:26-27 | `J / s == W` |
| UnitDefinitions.MultiplesConvertToMetre | src/physics/units/definitions.py:33-41 | every metre multiple has the metre's base, is not equal to the metre, and converts to it by its factor |
| UnitDefinitions.MultiplePrefixSymbols | src/physics/units/definitions.py:33-38 | km, dam and mm get `k`, `da` and `m`, and km shows as `[k]m ` |
| UnitDefinitions.NotAMultiplier | src/physics/measurements/prefix.py:8-47 | none of the imperial ratios, the declared 0.3048, 0.9144, 16.09344 and 18.52 or the intended 1609.344 and 1852, is a multiplier in the prefix table, so the lookup finds no symbol |
| UnitDefinitions.ImperialPrefixesHaveNoSymbol | src/physics/units/definitions.py:43-46 | ft, yd, mi and nmi as declared have prefixes without symbols, and so would the intended mile and nautical mile |
| UnitDefinitions.FootShowsNone | src/physics/units/definitions.py:43 | the foot's repr is `[None]ft` |
| UnitDefinitions.MileAsWrittenIsTooShort | src/physics/units/definitions.py:45-46 | as declared, a mile converts to 16.09344 m and a nautical mile to 18.52 m |
| UnitDefinitions.MileIsSeventeenHundredSixtyYards | src/physics/units/definitions.py:43-46 | the corrected mile is 1760 yd, 5280 ft and 1609.344 m, and the nautical mile is 1852 m |
| UnitDefinitions.MetrePlusMillimetre | src/physics/quantity.py:48-52 | 2 m + 1 mm is 2.001 m, 2 m - 1 mm is 1.999 m, and 1 mm + 1 m is 1001 mm |
| UnitDefinitions.MetreTimesSecond | src/physics/quantity.py:95-116 | 2 m times 3 s is 6 in `m * s`, and 2 m over 3 s is 2/3 in `m / s` |
| UnitDefinitions.SquareMetre | src/physics/quantity.py:142-143 | `(3 m) ** 2` is 9 in `m ** 2`, which equals 9 m2 |
| AutoDiff.Forward | src/mathematics/autodiff.py:280-285 | evaluating an op fails exactly when it divides by zero, with ZeroDivisionError |
| AutoDiff.Gradient | src/mathematics/autodiff.py:337-342 | with the corrected Div rule, a gradient rule fails exactly for the power rule at zero with exponent below 1 (ZeroDivisionError), and otherwise gives one contribution per input |
| AutoDiff.GradientIsLinear | src/mathematics/autodiff.py:150-342 | every contribution is the output gradient times the contribution for a unit output gradient |
| AutoDiff.GradientIsSlope | src/mathematics/autodiff.py:150-305 | for Add, Mul, the by-constant ops and Div's dividend, moving input `i` by `h` moves the value by exactly `h` times its unit contribution |
| AutoDiff.DivisorGradientIsDerivative | src/mathematics/autodiff.py:287-289 | moving the divisor `B` by `h` moves `A / B` by `h` times its contribution plus a term of second order in `h` |
| AutoDiff.ReflectedDivGradientIsDerivative | src/mathematics/autodiff.py:75 | the same for the intended node `c / A` |
| AutoDiff.Secant | src/mathematics/autodiff.py:334 | `b ** n - a ** n == (b - a) * Slope(a, b, n)` |
| AutoDiff.Tangent | src/mathematics/autodiff.py:341 | the slope where the two points meet is `n * a ** (n - 1)` |
| AutoDiff.PowByConstGradientIsDerivative | src/mathematics/autodiff.py:327-342 | the power rule's contribution is the secant slope of `x ** n` taken at a single point |
| AutoDiff.ArgValues | src/mathematics/autodiff.py:320 | the argument list holds the values of the input nodes, in order |
| AutoDiff.NodeDividesByNothing | src/mathematics/autodiff.py:280-285 | a node of a well-formed graph has its op's arity and never divides by zero |
| AutoDiff.AppendKeepsWellFormed | src/mathematics/autodiff.py:102-106 | appending a node whose value its op computed from existing inputs keeps the graph well formed |
| AutoDiff.Graph.Variable | src/mathematics/autodiff.py:359-364 | appends a placeholder node with the value and no inputs, at the next index |
| AutoDiff.Graph.Call | src/mathematics/autodiff.py:142-148 | appends a node with the op, the inputs and the computed value, or raises and appends nothing |
| AutoDiff.Graph.Plus | src/mathematics/autodiff.py:25-32 | `x + node` creates an Add node and `x + c` an AddByConst node on `x` only |
| AutoDiff.Graph.Times | src/mathematics/autodiff.py:35-42 | `x * node` creates a Mul node and `x * c` a MulByConst node on `x` only |
| AutoDiff.Graph.Over | src/mathematics/autodiff.py:64-71 | `x / node` creates a Div node and `x / c` a DivByConst node |
| AutoDiff.Graph.ROverAsWritten | src/mathematics/autodiff.py:75 | `c / x` creates the node `x / c` |
| AutoDiff.Graph.ROver | src/mathematics/autodiff.py:75 | the intended `c / x` creates a node of value `c / x` |
| AutoDiff.Graph.Power | src/mathematics/autodiff.py:78-85 | `x ** n` creates a PowByConst node on `x` |
| AutoDiff.Graph.RPowerAsWritten | src/mathematics/autodiff.py:89 | `c ** x` creates the node `x ** c` |
| AutoDiff.ReflectedDivisionAsWritten | src/mathematics/autodiff.py:75 | `1 / x` at `x = 2` evaluates to 2, where the intended node gives 0.5 |
| AutoDiff.ReflectedDivisionIsQuotient | src/mathematics/autodiff.py:75 | as written, the node times `c` gives `x` back; the intended node times `x` gives `c` |
| AutoDiff.ReflectedPowerAsWritten | src/mathematics/autodiff.py:89 | `2 ** x` at `x = 3` evaluates to 9 |
| Topology.ReachBound | src/mathematics/autodiff.py:511-518 | a node depends only on itself and older nodes |
| Topology.InputsReached | src/mathematics/autodiff.py:516-517 | a node depends on each of its inputs |
| Topology.ReachTransitive | src/mathematics/autodiff.py:511-518 | dependence is transitive |
| Topology.ReachParent | src/mathematics/autodiff.py:511-518 | everything a node depends on, other than itself, is an input of a node it depends on |
| Topology.ListAfterInputs | src/mathematics/autodiff.py:518 | appending a node after everything it depends on keeps the order topological, duplicate-free and closed |
| Topology.Visit | src/mathematics/autodiff.py:511-518 | `topo_sort_dfs` adds exactly the nodes `n` depends on to the visited set and the order, keeps the order topological and duplicate-free, and lists a newly visited `n` last |
| Topology.VisitInputs | src/mathematics/autodiff.py:516-517 | the loop over the inputs adds exactly what they depend on, without listing `n` |
| Topology.FindTopoSort | src/mathematics/autodiff.py:496-509 | the order lists every node the roots depend on exactly once, each after its inputs, and a single root comes last |
| Backprop.Rule | src/mathematics/gradients.py:30 | a node's gradient step raises exactly when its power rule divides by zero, and otherwise gives one contribution per input |
| Backprop.ShareOfNonInput | src/mathematics/gradients.py:33-37 | a node passes nothing back to a node that is not one of its inputs |
| Backprop.CollectedInsert | src/mathematics/gradients.py:33-37 | one more consumer adds exactly what it passes back |
| Backprop.CollectedAgree | src/mathematics/gradients.py:33-37 | consumer sets that differ only in nodes not consuming `x` give `x` the same sum |
| Backprop.LossAdjointIsOne | src/mathematics/gradients.py:19 | the loss's adjoint is 1.0 |
| Backprop.UnreachedAdjointIsZero | src/mathematics/gradients.py:40 | a node the loss does not depend on has adjoint 0.0 |
| Backprop.RuleIsLinear | src/mathematics/gradients.py:30 | each contribution is the output gradient times the unit contribution |
| Backprop.ShareIsLinear | src/mathematics/gradients.py:30-37 | what a node passes back is linear in its own gradient |
| Backprop.CollectedIsChainSum | src/mathematics/gradients.py:25-37 | the consumers' sum is the chain-rule sum of each consumer's adjoint times its unit share |
| Backprop.ChainRule | src/mathematics/gradients.py:25-37 | a node's adjoint is the seed plus, over its consumers the loss depends on, their adjoint times their unit contribution to it |
| Backprop.SumAdjoints | src/mathematics/autodiff.py:25-32 | the gradients of `a + b` are 1 and 1 |
| Backprop.PolynomialAdjoints | src/mathematics/autodiff.py:327-342 | the gradients of `a ** 2 + b / 6` at `a = 2` are 4 and 1/6 |
| Backprop.PolynomialWellFormed | src/mathematics/autodiff.py:293-305 | that graph holds the values its ops compute, and the loss depends on all five nodes |
| Backprop.ProductAdjoints | src/mathematics/autodiff.py:183-185 | the gradients of `a * b` at `a = 3`, `b = 5` are 5 and 3 |
| Backprop.SquareAdjoint | src/mathematics/gradients.py:33-37 | the node used as both inputs of `x * x` at `x = 3` collects both contributions, 6 = `2 x` |
| Backprop.QuotientAdjoints | src/mathematics/autodiff.py:287-289 | the intended gradients of `x / y` at `x = 2`, `y = 3` are 1/3 = `1 / y` and -2/9 = `-x / y ** 2` |
| Backprop.DivGradientAsWritten | src/mathematics/autodiff.py:287-289 | as written, a node output gradient raises TypeError; a float `o` raises exactly when it is zero, and otherwise gives a first contribution whose value times `o` is the divisor `B` |
| Backprop.DivGradientAsWrittenIsReciprocal | src/mathematics/autodiff.py:287-289 | at `x = 2`, `y = 3` the first contribution as written is 3 where the derivative is 1/3 |
| Backprop.ConsumerLater | src/mathematics/gradients.py:25 | in a topological order, a consumer of a node comes after it |
| Backprop.AddContributions | src/mathematics/gradients.py:33-37 | the first contribution creates an entry and later ones are added: the keys gain exactly the inputs, and each value grows by the contributions of the slots holding it |
| Backprop.Gradients | src/mathematics/gradients.py:3-42 | raises ZeroDivisionError exactly when a node the loss depends on has a failing power rule; otherwise the keys are exactly the requested nodes and each maps to its adjoint; the copy at src/mathematics/autodiff.py:454-493 computes the same map |
| Intervals.Contains | src/mathematics/curves/interval.py:17-24 | a list raises TypeError; an array gives a mask of its length; a number or a node gives one truth value |
| Intervals.ScalarMembership | src/mathematics/curves/interval.py:23-24 | a number is contained exactly when `start <= t <= end` |
| Intervals.ArrayIsElementwise | src/mathematics/curves/interval.py:19-20 | each element of the mask answers for the corresponding number |
| Intervals.NodeIsItsValue | src/mathematics/curves/interval.py:21-22 | a node is answered as its value would be |
| Intervals.EndpointsIncluded | src/mathematics/curves/interval.py:23-24 | both endpoints of a non-empty interval are contained |
| Intervals.ReversedIsEmpty | src/mathematics/curves/interval.py:17-24 | with `start > end` no number, array element or node is contained |
| Intervals.Convex | src/mathematics/curves/interval.py:23-24 | whatever lies between two contained numbers is contained |

## Left out

- `PowOp` (a node raised to a node) is not modelled. Its gradient needs real exponentiation and a logarithm, which Dafny's reals lack.
- `MatMulOp`, `MatMulByConstOp`, `ZerosLikeOp`, `OnesLikeOp` and `sum_node_list` are not modelled. They work on numpy array shapes.
- `AutoDiff.Graph.RPowerAsWritten`: only the as-written `x ** c` is modelled. The evidently intended `c ** x` is a real power with a real exponent.
- `Quantities.Pow`, `Units.PowBy` and `Prefixes.Pow` model integral exponents only. A prefix factor raised to a fractional power needs real exponentiation. BaseQuantity exponents are real, so `**` on a BaseQuantity accepts any number.
- `AutoDiff.Gradient` takes an integer exponent for the power-by-constant op, for the same reason.
- `AutoDiff.PowByConstGradientIsDerivative` proves the power rule for exponents of at least 1 only. Below that the secant slope is not a polynomial.
- The Div gradient's second-order remainder is stated exactly. No limit is taken; reals in Dafny have no limits.
- Gradients are tracked as values. The Python code builds them as nodes through the node operators but only reads their values. The node form is modelled only in `Backprop.DivGradientAsWritten`, where it decides whether the rule raises.
- `Backprop.Gradients` uses the corrected Div gradient rule. The as-written rule is modelled separately; see Findings.
- `AutoDiff.Gradient` uses the corrected Div gradient rule, `[out / B, -out * A / B ** 2]`. As written, the first contribution is `B / out`, a zero float gradient raises ZeroDivisionError and a node gradient raises TypeError; that rule is `Backprop.DivGradientAsWritten`, see Findings. So as written the Div rule fails in more cases than the power rule's.
- `Quantities.Apply` evaluates `asinh` by the corrected odd formula (`AsinhOf`). The as-written negative branch, which drops the sign, is `Quantities.AsinhAsWritten`; see Findings.
- Node names, `__str__`/`__repr__` of nodes and `Quantity.__repr__` are not modelled. They are display only.
- The number formatting inside a BaseQuantity repr is a parameter (`show`). `IntegralText` gives Python's text for integral exponents.
- Transcendental functions (`math.exp`, `math.log`, `math.sqrt`, the trigonometric and hyperbolic functions) are parameters of `Quantities.MathLib`. Their domain errors are modelled explicitly.
- `round`, `floor`, `ceil`, `trunc`, `__int__`, `__float__` and `__array__` are not modelled. They are float and numpy conversions.
- IEEE float rounding is not modelled. Values are exact reals, so `2 m + 1 mm` is exactly 2.001 m.
- numpy scalars, arrays of arrays, and nodes whose value is an array are not modelled in `Intervals.Contains`. A node's value is one real.
- A list or tuple passed to `contains` raises TypeError at the comparison `start <= t`, as it does in Python. The elementwise reading of the `np.all` line is never reached for it.
- The recursion depth limit of the depth-first sort is not modelled.
- src/physics/base_quantity.py and src/physics/prefix.py are not part of this model. The current Unit and Quantity import them; they are modelled by the `measurements` versions.
- The `.topology` module imported by src/mathematics/gradients.py is not part of this model. It is modelled by the `find_topo_sort` of src/mathematics/autodiff.py.
- src/mathematics/functions.py is not modelled. It dispatches to op classes that no shown file defines.
- The curve and surface generators and the physics bookkeeping (material points, Lagrangian, Hamiltonian, potentials) are not modelled. They are numpy trigonometry and linear algebra.

## Findings

| source | as written | input that shows it | evidently intended | confidence | as-written member | corrected member |
|---|---|---|---|---|---|---|
| src/physics/units/definitions.py:45-46 | `mi` and `nmi` have factors `1609.344e-2` and `1852e-2` | `1 mi` converted to metres gives 16.09344 | 1609.344 m, i.e. 1760 yd, and 1852 m | not executed | UnitDefinitions.MileAsWrittenIsTooShort | UnitDefinitions.MileIsSeventeenHundredSixtyYards |
| src/mathematics/autodiff.py:287-289 | `output_grad / node.inputs[1]` with a float gradient falls back on the node's reflected division, which divides the node by the gradient | `x / y` at `x = 2`, `y = 3`, output gradient 1.0: the contribution to `x` is 3 | `1 / y` = 1/3 | not executed | Backprop.DivGradientAsWrittenIsReciprocal | Backprop.QuotientAdjoints |
| src/mathematics/autodiff.py:75 | `__rtruediv__ = __truediv__`, so `c / x` builds `x / c` | `1 / x` at `x = 2` evaluates to 2 | 0.5 | not executed | AutoDiff.ReflectedDivisionAsWritten | AutoDiff.ReflectedDivisionIsQuotient |
| src/physics/quantity.py:283-284 | asinh of a negative value returns `log(-v + sqrt(v*v + 1))`, the asinh of `-v` | `v = -1` gives asinh(1) > 0 | `-asinh(-v)`, an odd function | not executed | Quantities.AsinhAsWrittenIsEven | Quantities.AsinhIsOdd |
