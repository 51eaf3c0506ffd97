/** The named dimensions: the seven base quantities and the quantities composed from
    them with `*`, `/` and `**`, defined exactly as the library composes them. */
module Basis {
  import opened BaseQuantities

  const scalar := BaseQuantity(0.0, 0.0, 0.0, 0.0, 0.0, 0.0, 0.0)
  const length := BaseQuantity(1.0, 0.0, 0.0, 0.0, 0.0, 0.0, 0.0)
  const time := BaseQuantity(0.0, 1.0, 0.0, 0.0, 0.0, 0.0, 0.0)
  const mass := BaseQuantity(0.0, 0.0, 1.0, 0.0, 0.0, 0.0, 0.0)
  const temperature := BaseQuantity(0.0, 0.0, 0.0, 1.0, 0.0, 0.0, 0.0)
  const electricCurrent := BaseQuantity(0.0, 0.0, 0.0, 0.0, 1.0, 0.0, 0.0)
  const substanceAmount := BaseQuantity(0.0, 0.0, 0.0, 0.0, 0.0, 1.0, 0.0)
  const luminousIntensity := BaseQuantity(0.0, 0.0, 0.0, 0.0, 0.0, 0.0, 1.0)

  /** The seven base constants in constructor-argument order. */
  const BaseConstants := [length, time, mass, temperature, electricCurrent,
                          substanceAmount, luminousIntensity]

  const velocity := Div(length, time)
  const acceleration := Div(velocity, time)

  const momentum := Mul(mass, velocity)
  const impulse := Mul(momentum, time)
  const angularMomentum := Mul(momentum, length)

  const angle := Div(length, length)
  const angularVelocity := Div(angle, time)
  const angularAcceleration := Div(angularVelocity, time)

  const area := Pow(length, 2.0)
  const volume := Pow(length, 3.0)
  const density := Div(mass, volume)

  const force := Mul(mass, acceleration)
  const energy := Mul(force, length)
  const power := Div(energy, time)
  const pressure := Div(force, area)
  const torque := Mul(force, length)
  const action := Mul(energy, time)

  const electricCharge := Mul(electricCurrent, time)
  const voltage := Div(power, electricCurrent)
  const capacitance := Div(electricCharge, voltage)
  const resistance := Div(voltage, electricCurrent)
  const conductance := Div(electricCurrent, voltage)
  const magneticFlux := Mul(voltage, time)
  const magneticFluxDensity := Div(magneticFlux, area)
  const inductance := Div(magneticFlux, electricCurrent)

  /** The earlier basis writes pressure as force over length squared. */
  const pressureOverLengthSquared := Div(force, Pow(length, 2.0))

  /** `scalar` is the all-zero base and the identity of `*`. */
  lemma ScalarIsIdentity(b: BaseQuantity)
    ensures scalar == Dimensionless
    ensures Mul(b, scalar) == b && Mul(scalar, b) == b
  {
  }

  /** The base constants are the unit vectors, in constructor-argument order. */
  lemma BaseConstantsAreUnitVectors()
    ensures forall k, i :: 0 <= k < Dimensions && 0 <= i < Dimensions ==>
      Exponent(BaseConstants[k], i) == (if i == k then 1.0 else 0.0)
  {
  }

  /** The kinematic compositions. */
  lemma KinematicExponents()
    ensures velocity == BaseQuantity(1.0, -1.0, 0.0, 0.0, 0.0, 0.0, 0.0)
    ensures acceleration == BaseQuantity(1.0, -2.0, 0.0, 0.0, 0.0, 0.0, 0.0)
    ensures momentum == BaseQuantity(1.0, -1.0, 1.0, 0.0, 0.0, 0.0, 0.0)
  {
  }

  /** Force is mass times acceleration. */
  lemma ForceExponents()
    ensures force == BaseQuantity(1.0, -2.0, 1.0, 0.0, 0.0, 0.0, 0.0)
  {
    KinematicExponents();
  }

  /** Energy is force times length; torque has the same dimension. */
  lemma EnergyExponents()
    ensures energy == BaseQuantity(2.0, -2.0, 1.0, 0.0, 0.0, 0.0, 0.0)
    ensures torque == energy
  {
    ForceExponents();
  }

  /** Power is energy per time. */
  lemma PowerExponents()
    ensures power == BaseQuantity(2.0, -3.0, 1.0, 0.0, 0.0, 0.0, 0.0)
  {
    EnergyExponents();
  }

  /** Area is length squared, volume length cubed. */
  lemma AreaExponents()
    ensures area == BaseQuantity(2.0, 0.0, 0.0, 0.0, 0.0, 0.0, 0.0)
    ensures volume == BaseQuantity(3.0, 0.0, 0.0, 0.0, 0.0, 0.0, 0.0)
  {
  }

  /** Pressure is force per area. */
  lemma PressureExponents()
    ensures pressure == BaseQuantity(-1.0, -2.0, 1.0, 0.0, 0.0, 0.0, 0.0)
  {
    ForceExponents();
    AreaExponents();
  }

  /** An angle is a ratio of lengths, hence dimensionless. */
  lemma AngleIsScalar()
    ensures angle == scalar
    ensures angularVelocity == Pow(time, -1.0)
  {
  }

  /** Voltage is power per current. */
  lemma VoltageExponents()
    ensures voltage == BaseQuantity(2.0, -3.0, 1.0, 0.0, -1.0, 0.0, 0.0)
  {
    PowerExponents();
  }

  /** Charge, capacitance, and the mutually inverse resistance and conductance. */
  lemma ElectricalExponents()
    ensures electricCharge == BaseQuantity(0.0, 1.0, 0.0, 0.0, 1.0, 0.0, 0.0)
    ensures capacitance == BaseQuantity(-2.0, 4.0, -1.0, 0.0, 2.0, 0.0, 0.0)
    ensures Mul(resistance, conductance) == scalar
  {
    VoltageExponents();
  }

  /** The earlier basis's pressure is the same dimension as force over area. */
  lemma PressureFormsAgree()
    ensures pressureOverLengthSquared == pressure
  {
    AreaExponents();
  }
}
