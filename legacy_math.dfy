/*
 * The force formulas of WaterPhysicsMath.cs, the legacy pipeline's
 * counterpart of WaterInteraction/WaterInteractionUtils.cs.
 *
 * GetTriangleCenter, GetTriangleVelocity and GetTriangleArea are the same
 * expressions as in the refined pipeline, and so are the buoyancy and
 * viscous formulas once a TriangleData is read as the refined record of a
 * piece (MeshData.Metrics); those are reused from module InteractionUtils.
 * What differs is modelled here: the coefficient computed from the
 * Reynolds number itself, pressure drag on the raw speed, and a slamming
 * force with a fixed power of 2, a guard on the original area and a tuning
 * factor. The tuning values read from the DebugPhysics singleton are a
 * parameter.
 */
module WaterPhysicsMath {
  import opened UnityMath
  import opened InteractionTypes
  import opened InteractionUtils
  import opened MeshData

  /** The fields of DebugPhysics.instance the formulas read. */
  datatype DebugPhysics = DebugPhysics(
    pdCoefficient1: real, pdCoefficient2: real, pdFallOffPower: real,   // C_PD1, C_PD2, f_P
    sdCoefficient1: real, sdCoefficient2: real, sdFallOffPower: real,   // C_SD1, C_SD2, f_S
    maxAcceleration: real,                                              // acc_max
    slammingCheat: real)

  /** Kinematic viscosity of water at 20 degrees, in m^2/s. */
  const Viscosity: real := 0.000001

  /** Rn = v L / nu. */
  function ReynoldsNumber(n: Numerics, velocity: real, length: real): (r: real)
    ensures DivideLaws(n) ==> r == velocity * length * 1000000.0
  {
    n.divide(velocity * length, Viscosity)
  }

  /** Cf = 0.075 / (log10 Rn - 2)^2; `rho` is not read. */
  function ResistanceCoefficient(n: Numerics, rho: real, velocity: real, length: real): (r: real)
    ensures var d := n.log10(ReynoldsNumber(n, velocity, length)) - 2.0;
      PowLaws(n) && DivideLaws(n) && d != 0.0 ==> r * (d * d) == 0.075
  {
    FrictionLine(n, n.log10(ReynoldsNumber(n, velocity, length)) - 2.0);
    n.divide(0.075, n.pow(n.log10(ReynoldsNumber(n, velocity, length)) - 2.0, 2.0))
  }

  /** Rn = v L 10^6, so log10 Rn = log10 v + log10 L - log10 nu. */
  lemma {:induction false} ReynoldsNumberLog(n: Numerics, velocity: real, length: real)
    requires DivideLaws(n) && LogLaws(n) && velocity > 0.0 && length > 0.0
    ensures ReynoldsNumber(n, velocity, length) == velocity * length * 1000000.0
    ensures n.log10(ReynoldsNumber(n, velocity, length)) == n.log10(velocity) + n.log10(length) - n.log10(Viscosity)
  {
    var vl := velocity * length;
    ProductPositive(velocity, length, vl);
    DivideExact(n, vl, Viscosity);
    var rn := ReynoldsNumber(n, velocity, length);
    assert rn == vl * 1000000.0;
    LogOfProduct(n, rn, Viscosity, vl);
    LogOfProduct(n, velocity, length, vl);
  }

  lemma LogOfProduct(n: Numerics, a: real, b: real, p: real)
    requires LogLaws(n) && a > 0.0 && b > 0.0 && p == a * b
    ensures n.log10(p) == n.log10(a) + n.log10(b)
  {
  }

  /**
   * For a positive v L away from Rn = 100 the coefficient is positive, it
   * does not depend on the density, and it is the refined pipeline's
   * coefficient computed from the logarithms of v, L and nu.
   */
  lemma {:induction false} ResistanceCoefficientFacts(n: Numerics, rho: real, rho': real, velocity: real, length: real)
    requires DivideLaws(n) && PowLaws(n) && LogLaws(n)
    requires velocity > 0.0 && length > 0.0
    requires n.log10(ReynoldsNumber(n, velocity, length)) != 2.0
    ensures ResistanceCoefficient(n, rho, velocity, length) > 0.0
    ensures ResistanceCoefficient(n, rho, velocity, length) == ResistanceCoefficient(n, rho', velocity, length)
    ensures ResistanceCoefficient(n, rho, velocity, length)
      == CalculateViscosityCoefficient(n, n.log10(velocity), n.log10(length), n.log10(Viscosity))
  {
    ReynoldsNumberLog(n, velocity, length);
    ViscosityCoefficientPositive(n, n.log10(velocity), n.log10(length), n.log10(Viscosity));
  }

  /** rho g (-centerDistance) A n with x and z set to zero. */
  function BuoyancyForce(rho: real, gravityY: real, triangleData: TriangleData): (r: Vec3)
    ensures r.x == 0.0 && r.z == 0.0
    ensures triangleData.centerDistance == 0.0 || triangleData.area == 0.0 || triangleData.normal.y == 0.0 ==> r == Zero
  {
    InteractionUtils.BuoyancyForce(rho, gravityY, Metrics(triangleData))
  }

  /**
   * Buoyancy is vertical; under downward gravity it lifts a downward-facing
   * triangle whose centre is under water and pulls down one whose centre is
   * above it.
   */
  lemma {:induction false} BuoyancyIsVertical(rho: real, gravityY: real, triangleData: TriangleData)
    requires rho > 0.0 && gravityY < 0.0 && triangleData.area > 0.0 && triangleData.normal.y < 0.0
    ensures BuoyancyForce(rho, gravityY, triangleData).x == 0.0 && BuoyancyForce(rho, gravityY, triangleData).z == 0.0
    ensures triangleData.centerDistance < 0.0 ==> BuoyancyForce(rho, gravityY, triangleData).y > 0.0
    ensures triangleData.centerDistance > 0.0 ==> BuoyancyForce(rho, gravityY, triangleData).y < 0.0
  {
    BuoyancyDirection(rho, gravityY, Metrics(triangleData));
  }

  /** 1/2 rho Cf A |v|^2 along the reversed, normalised tangential velocity. */
  function ViscousWaterResistance(n: Numerics, rho: real, cf: real, triangleData: TriangleData): (r: Vec3)
    ensures rho == 0.0 || cf == 0.0 || triangleData.area == 0.0 ==> r == Zero
    ensures SqrtLaws(n) && triangleData.velocity == Zero ==> r == Zero
  {
    InteractionUtils.ViscousWaterResistance(n, rho, cf, Metrics(triangleData))
  }

  /** On a unit normal the viscous force is orthogonal to the normal and never pushes along the velocity. */
  lemma {:induction false} ViscousForceIsTangential(n: Numerics, rho: real, cf: real, triangleData: TriangleData)
    requires SqrtLaws(n) && Dot(triangleData.normal, triangleData.normal) == 1.0
    requires rho >= 0.0 && cf >= 0.0 && triangleData.area >= 0.0
    ensures Dot(ViscousWaterResistance(n, rho, cf, triangleData), triangleData.normal) == 0.0
    ensures Dot(ViscousWaterResistance(n, rho, cf, triangleData), triangleData.velocity) <= 0.0
  {
    ViscousForceTangentialAndResisting(n, rho, cf, Metrics(triangleData));
  }

  /** Pressure drag (cosine > 0) or suction along the normal, on the raw speed |v|. */
  function PressureDragForce(n: Numerics, triangleData: TriangleData, tuning: DebugPhysics): (r: Vec3)
    ensures Cross(r, triangleData.normal) == Zero
    ensures SqrtLaws(n) && triangleData.velocity == Zero ==> r == Zero
  {
    var speed := Magnitude(n, triangleData.velocity);
    var k := PressureDragScalar(triangleData.cosine, speed, triangleData.area, n,
      tuning.pdCoefficient1, tuning.pdCoefficient2, tuning.pdFallOffPower,
      tuning.sdCoefficient1, tuning.sdCoefficient2, tuning.sdFallOffPower);
    CrossScaledSelf(triangleData.normal, k);
    StillSpeed(n, triangleData.velocity);
    Scale(triangleData.normal, k)
  }

  /**
   * The legacy drag is the refined one with a reference speed of 1: the
   * speed is not scaled. It acts along the normal, against it on a
   * triangle facing its motion and with it otherwise.
   */
  lemma {:induction false} PressureDragOnRawSpeed(n: Numerics, triangleData: TriangleData, tuning: DebugPhysics)
    requires SqrtLaws(n) && DivideLaws(n) && PowLaws(n)
    requires -1.0 <= triangleData.cosine <= 1.0 && triangleData.area >= 0.0
    requires tuning.pdCoefficient1 >= 0.0 && tuning.pdCoefficient2 >= 0.0 && tuning.pdFallOffPower > 0.0
    requires tuning.sdCoefficient1 >= 0.0 && tuning.sdCoefficient2 >= 0.0 && tuning.sdFallOffPower > 0.0
    ensures PressureDragForce(n, triangleData, tuning) == InteractionUtils.PressureDragForce(n, Metrics(triangleData), 1.0,
      tuning.pdCoefficient1, tuning.pdCoefficient2, tuning.pdFallOffPower,
      tuning.sdCoefficient1, tuning.sdCoefficient2, tuning.sdFallOffPower)
    ensures Cross(PressureDragForce(n, triangleData, tuning), triangleData.normal) == Zero
    ensures triangleData.cosine > 0.0 ==> Dot(PressureDragForce(n, triangleData, tuning), triangleData.normal) <= 0.0
    ensures triangleData.cosine <= 0.0 ==> Dot(PressureDragForce(n, triangleData, tuning), triangleData.normal) >= 0.0
  {
    DivideExact(n, Magnitude(n, triangleData.velocity), 1.0);
    PressureDragAlongNormal(n, Metrics(triangleData), 1.0,
      tuning.pdCoefficient1, tuning.pdCoefficient2, tuning.pdFallOffPower,
      tuning.sdCoefficient1, tuning.sdCoefficient2, tuning.sdFallOffPower);
  }

  /** (A V - A' V') / (A0 dt): the acceleration of the swept volume of the original triangle. */
  function SlammingAcceleration(n: Numerics, slammingData: SlammingForceData, fixedDeltaTime: real): (r: Vec3)
    ensures DivideLaws(n) && slammingData.originalArea * fixedDeltaTime != 0.0 ==>
      Scale(r, slammingData.originalArea * fixedDeltaTime)
        == Sub(Scale(slammingData.velocity, slammingData.submergedArea),
               Scale(slammingData.previousVelocity, slammingData.previousSubmergedArea))
  {
    var dV := Scale(slammingData.velocity, slammingData.submergedArea);
    var dVPrevious := Scale(slammingData.previousVelocity, slammingData.previousSubmergedArea);
    DivideVecUndone(n, Sub(dV, dVPrevious), slammingData.originalArea * fixedDeltaTime);
    DivideVec(n, Sub(dV, dVPrevious), slammingData.originalArea * fixedDeltaTime)
  }

  /** Dividing a vector by a non-zero k and scaling it back by k gives the vector. */
  lemma DivideVecUndone(n: Numerics, a: Vec3, k: real)
    ensures DivideLaws(n) && k != 0.0 ==> Scale(DivideVec(n, a, k), k) == a
  {
    if DivideLaws(n) && k != 0.0 {
      assert (a.x / k) * k == a.x && (a.y / k) * k == a.y && (a.z / k) * k == a.z;
    }
  }

  /** F_stop = m v (2A / S). */
  function StoppingForce(n: Numerics, triangleData: TriangleData, boatArea: real, boatMass: real): (r: Vec3)
    ensures Cross(r, triangleData.velocity) == Zero
    ensures DivideLaws(n) && boatArea != 0.0 && (triangleData.area == 0.0 || boatMass == 0.0) ==> r == Zero
  {
    var share := boatMass * n.divide(2.0 * triangleData.area, boatArea);
    CrossScaledSelf(triangleData.velocity, share);
    Scale(triangleData.velocity, share)
  }

  /** clamp01(|a| / acc_max)^2: how hard the swept volume accelerates, relative to the tuned maximum. */
  function SlammingShare(n: Numerics, slammingData: SlammingForceData, fixedDeltaTime: real, tuning: DebugPhysics): real {
    var acc := Magnitude(n, SlammingAcceleration(n, slammingData, fixedDeltaTime));
    n.pow(Clamp01(n.divide(acc, tuning.maxAcceleration)), 2.0)
  }

  /** The share is the square of a ratio clamped to [0, 1], so it lies in [0, 1] itself. */
  lemma {:induction false} SlammingShareInUnit(n: Numerics, slammingData: SlammingForceData, fixedDeltaTime: real, tuning: DebugPhysics)
    requires PowLaws(n)
    ensures var r := Clamp01(n.divide(Magnitude(n, SlammingAcceleration(n, slammingData, fixedDeltaTime)), tuning.maxAcceleration));
      SlammingShare(n, slammingData, fixedDeltaTime, tuning) == r * r
    ensures 0.0 <= SlammingShare(n, slammingData, fixedDeltaTime, tuning) <= 1.0
  {
    var r := Clamp01(n.divide(Magnitude(n, SlammingAcceleration(n, slammingData, fixedDeltaTime)), tuning.maxAcceleration));
    assert 0.0 <= r <= 1.0;
    ProductNonNegative(r, r, r * r);
    UnitSquare(r);
  }

  lemma UnitSquare(r: real)
    requires 0.0 <= r <= 1.0
    ensures r * r <= 1.0
  {
    assert r * r <= r * 1.0;
  }

  /** -share cos(theta) F_stop slammingCheat; zero on a receding triangle or one without original area. */
  function SlammingForce(n: Numerics, slammingData: SlammingForceData, triangleData: TriangleData,
    boatArea: real, boatMass: real, fixedDeltaTime: real, tuning: DebugPhysics): (r: Vec3)
    ensures triangleData.cosine < 0.0 || slammingData.originalArea <= 0.0 ==> r == Zero
  {
    if triangleData.cosine < 0.0 || slammingData.originalArea <= 0.0 then Zero
    else
      var share := SlammingShare(n, slammingData, fixedDeltaTime, tuning);
      Scale(Scale(StoppingForce(n, triangleData, boatArea, boatMass), share * triangleData.cosine * tuning.slammingCheat), -1.0)
  }

  /**
   * With a non-negative mass, area and tuning factor and a positive hull
   * area, the slamming force never pushes along the triangle's velocity.
   */
  lemma {:induction false} SlammingOpposesVelocity(n: Numerics, slammingData: SlammingForceData, triangleData: TriangleData,
    boatArea: real, boatMass: real, fixedDeltaTime: real, tuning: DebugPhysics)
    requires PowLaws(n) && DivideLaws(n)
    requires boatMass >= 0.0 && triangleData.area >= 0.0 && boatArea > 0.0 && tuning.slammingCheat >= 0.0
    ensures Dot(SlammingForce(n, slammingData, triangleData, boatArea, boatMass, fixedDeltaTime, tuning), triangleData.velocity) <= 0.0
  {
    var f := SlammingForce(n, slammingData, triangleData, boatArea, boatMass, fixedDeltaTime, tuning);
    if triangleData.cosine < 0.0 || slammingData.originalArea <= 0.0 {
      DotWithZero(triangleData.velocity);
      SameDot(f, Zero, triangleData.velocity);
    } else {
      SlammingShareInUnit(n, slammingData, fixedDeltaTime, tuning);
      StoppingForceAlongVelocity(n, triangleData, boatArea, boatMass);
      SlammingForceOpposes(n, slammingData, triangleData, boatArea, boatMass, fixedDeltaTime, tuning);
    }
  }

  lemma SameDot(f: Vec3, g: Vec3, v: Vec3)
    requires f == g
    ensures Dot(f, v) == Dot(g, v)
  {
  }

  lemma SlammingForceOpposes(n: Numerics, slammingData: SlammingForceData, triangleData: TriangleData,
    boatArea: real, boatMass: real, fixedDeltaTime: real, tuning: DebugPhysics)
    requires triangleData.cosine >= 0.0 && slammingData.originalArea > 0.0 && tuning.slammingCheat >= 0.0
    requires SlammingShare(n, slammingData, fixedDeltaTime, tuning) >= 0.0
    requires Dot(StoppingForce(n, triangleData, boatArea, boatMass), triangleData.velocity) >= 0.0
    ensures Dot(SlammingForce(n, slammingData, triangleData, boatArea, boatMass, fixedDeltaTime, tuning), triangleData.velocity) <= 0.0
  {
    ReversedStopOpposes(StoppingForce(n, triangleData, boatArea, boatMass), SlammingShare(n, slammingData, fixedDeltaTime, tuning),
      triangleData.cosine, tuning.slammingCheat, triangleData.velocity);
  }

  lemma ReversedStopOpposes(stop: Vec3, share: real, cosine: real, cheat: real, v: Vec3)
    requires Dot(stop, v) >= 0.0 && share >= 0.0 && cosine >= 0.0 && cheat >= 0.0
    ensures Dot(Scale(Scale(stop, share * cosine * cheat), -1.0), v) <= 0.0
  {
    SlammingFactorNonNegative(share, cosine, cheat, share * cosine * cheat);
    ReversedScaleOpposes(stop, share * cosine * cheat, v);
  }

  lemma SlammingFactorNonNegative(share: real, cosine: real, cheat: real, k: real)
    requires share >= 0.0 && cosine >= 0.0 && cheat >= 0.0 && k == share * cosine * cheat
    ensures k >= 0.0
  {
    ProductNonNegative(share, cosine, share * cosine);
    ProductNonNegative(share * cosine, cheat, k);
  }

  /** With a non-negative mass and area and a positive hull area, F_stop points along the velocity. */
  lemma {:induction false} StoppingForceAlongVelocity(n: Numerics, triangleData: TriangleData, boatArea: real, boatMass: real)
    requires DivideLaws(n) && boatMass >= 0.0 && triangleData.area >= 0.0 && boatArea > 0.0
    ensures Dot(StoppingForce(n, triangleData, boatArea, boatMass), triangleData.velocity) >= 0.0
  {
    DivideExact(n, 2.0 * triangleData.area, boatArea);
    var q := (2.0 * triangleData.area) / boatArea;
    assert q >= 0.0;
    var share := boatMass * q;
    ProductNonNegative(boatMass, q, share);
    DotLinear(triangleData.velocity, triangleData.velocity, triangleData.velocity, share);
    DotSelfNonNegative(triangleData.velocity);
    ProductNonNegative(share, Dot(triangleData.velocity, triangleData.velocity), share * Dot(triangleData.velocity, triangleData.velocity));
  }

  /** Scaling a vector with a non-negative dot product by k >= 0 and then by -1 makes the dot product non-positive. */
  lemma ReversedScaleOpposes(f: Vec3, k: real, v: Vec3)
    requires Dot(f, v) >= 0.0 && k >= 0.0
    ensures Dot(Scale(Scale(f, k), -1.0), v) <= 0.0
  {
    DotLinear(f, f, v, k);
    ProductNonNegative(k, Dot(f, v), k * Dot(f, v));
  }
}
