// WaterInteraction: each physics step rebuilds the submerged pieces, finds
// the range of their centres along z, and applies to the rigid body, at each
// submerged centre, the sum of the enabled hydrodynamic forces.

module WaterInteraction {
  import opened UnityMath
  import opened InteractionTypes
  import opened InteractionUtils
  import opened TriangleBuilder
  import opened CurveLookUpTable

  /** Density of water at 15 degrees Celsius, kg/m^3. */
  const DensityOfWater: real := 999.1026

  /** log10 of the kinematic viscosity of water at 15 degrees Celsius. */
  const LogViscosity: real := -5.958607314841775

  /** float.MaxValue; zMin starts here and zMax at its negation (float.MinValue). */
  const FloatMax: real := 340282346638528859811704183484516925440.0

  /** The inspector settings of the component: the four debug toggles and the drag and slamming tuning. */
  datatype Settings = Settings(
    debugBuoyancyForce: bool,
    debugViscousWaterResistance: bool,
    debugPressureDrag: bool,
    debugSlammingForce: bool,
    referenceSpeed: real,
    pdCoefficient1: real, pdCoefficient2: real, pdFallOffPower: real,
    sdCoefficient1: real, sdCoefficient2: real, sdFallOffPower: real,
    smRampUpPower: real, maxAcceleration: real)

  // ---------------------------------------------------------------------
  // The z-range of the submerged centres.

  /** (zMin, zMax) after the first loop of CalculateForce has seen the first count pieces. */
  function ZRange(ts: seq<TriangleInfo>, count: nat): (r: (real, real))
    requires count <= |ts|
    ensures r.0 <= FloatMax && -FloatMax <= r.1
    ensures count > 0 ==> r.0 <= ts[0].center.z <= r.1
  {
    if count == 0 then (FloatMax, -FloatMax)
    else
      var (zMin, zMax) := ZRange(ts, count - 1);
      var z := ts[count - 1].center.z;
      (if z < zMin then z else zMin, if z > zMax then z else zMax)
  }

  /** Every centre seen lies within [zMin, zMax]. */
  lemma {:induction false} ZRangeBounds(ts: seq<TriangleInfo>, count: nat)
    requires count <= |ts|
    ensures forall k :: 0 <= k < count ==> ZRange(ts, count).0 <= ts[k].center.z <= ZRange(ts, count).1
  {
    if count > 0 {
      ZRangeBounds(ts, count - 1);
    }
  }

  /** Centres inside the float range: zMin and zMax are the z of pieces seen. */
  lemma {:induction false} ZRangeAttained(ts: seq<TriangleInfo>, count: nat)
    requires 0 < count <= |ts|
    requires forall k :: 0 <= k < |ts| ==> -FloatMax < ts[k].center.z < FloatMax
    ensures exists k :: 0 <= k < count && ZRange(ts, count).0 == ts[k].center.z
    ensures exists k :: 0 <= k < count && ZRange(ts, count).1 == ts[k].center.z
  {
    var z := ts[count - 1].center.z;
    if count == 1 {
      assert ZRange(ts, 1) == (z, z);
    } else {
      ZRangeAttained(ts, count - 1);
      var (zMin, zMax) := ZRange(ts, count - 1);
      var low :| 0 <= low < count - 1 && zMin == ts[low].center.z;
      var high :| 0 <= high < count - 1 && zMax == ts[high].center.z;
      var low' := if z < zMin then count - 1 else low;
      var high' := if z > zMax then count - 1 else high;
      assert ZRange(ts, count).0 == ts[low'].center.z;
      assert ZRange(ts, count).1 == ts[high'].center.z;
    }
  }

  /** (z - zMin) / (zMax - zMin): where a centre lies along the hull, from 0 at the front to 1. */
  function LookUpKey(n: Numerics, z: real, zMin: real, zMax: real): (r: real)
    ensures DivideLaws(n) && zMin != zMax && z == zMin ==> r == 0.0
    ensures DivideLaws(n) && zMin != zMax && z == zMax ==> r == 1.0
  {
    SelfQuotient(n, zMax - zMin);
    n.divide(z - zMin, zMax - zMin)
  }

  lemma SelfQuotient(n: Numerics, d: real)
    ensures DivideLaws(n) && d != 0.0 ==> n.divide(d, d) == 1.0
  {
    if DivideLaws(n) && d != 0.0 {
      QuotientIs(d, d, 1.0);
    }
  }

  /** A centre within a non-empty range gives a key in [0, 1]. */
  lemma LookUpKeyInUnit(n: Numerics, z: real, zMin: real, zMax: real)
    requires DivideLaws(n) && zMin <= z <= zMax && zMin < zMax
    ensures 0.0 <= LookUpKey(n, z, zMin, zMax) <= 1.0
  {
    var d := zMax - zMin;
    var q := (z - zMin) / d;
    assert q * d == z - zMin;
    if q > 1.0 {
      ProductPositive(q - 1.0, d, (q - 1.0) * d);
      assert false;
    }
    if q < 0.0 {
      ProductPositive(-q, d, -q * d);
      assert false;
    }
  }

  // ---------------------------------------------------------------------
  // The force applied at one piece.

  /** A force component as it enters the sum: itself when its toggle is on, zero otherwise. */
  function On(toggle: bool, force: Vec3): Vec3 {
    if toggle then force else Zero
  }

  /** netForce: the sum of the components whose debug toggle is on. */
  function NetForce(s: Settings, buoyancy: Vec3, viscous: Vec3, pressure: Vec3, slamming: Vec3): (r: Vec3)
    ensures !s.debugBuoyancyForce && !s.debugViscousWaterResistance && !s.debugPressureDrag && !s.debugSlammingForce ==>
      r == Zero
    ensures s.debugBuoyancyForce && s.debugViscousWaterResistance && s.debugPressureDrag && s.debugSlammingForce ==>
      r == Add(Add(Add(buoyancy, viscous), pressure), slamming)
    ensures s.debugBuoyancyForce && !s.debugViscousWaterResistance && !s.debugPressureDrag && !s.debugSlammingForce ==>
      r == buoyancy
  {
    var withBuoyancy := if s.debugBuoyancyForce then Add(Zero, buoyancy) else Zero;
    var withViscous := if s.debugViscousWaterResistance then Add(withBuoyancy, viscous) else withBuoyancy;
    var withPressure := if s.debugPressureDrag then Add(withViscous, pressure) else withViscous;
    if s.debugSlammingForce then Add(withPressure, slamming) else withPressure
  }

  /** For every setting of the four toggles the net force is the sum of exactly the components switched on. */
  lemma NetForceIsToggledSum(s: Settings, buoyancy: Vec3, viscous: Vec3, pressure: Vec3, slamming: Vec3)
    ensures NetForce(s, buoyancy, viscous, pressure, slamming)
      == Add(Add(Add(On(s.debugBuoyancyForce, buoyancy), On(s.debugViscousWaterResistance, viscous)),
        On(s.debugPressureDrag, pressure)), On(s.debugSlammingForce, slamming))
  {
  }

  /** travelLengthScaleFactor: twice log10 of the hull's extent along z. */
  function TravelLengthScaleFactor(n: Numerics, zMin: real, zMax: real): real {
    n.log10(zMax - zMin) * 2.0
  }

  /** What one step's force loop reads besides the pieces and the buffers. */
  datatype ForceStep = ForceStep(
    ctx: Context,
    settings: Settings,
    fixedDeltaTime: real,  // Time.fixedDeltaTime
    totalArea: real,       // the TotalArea property's value
    tableSize: int,        // curveLookUpTable.lookUpTableSize
    table: seq<real>,      // curveLookUpTable.lookUpTable
    zMin: real,
    zMax: real)

  /** What the second loop of CalculateForce does with one piece. */
  datatype PieceOutcome = Skipped | Applied(force: AppliedForce) | LookUpFailed

  /** The four forces the loop computes for one piece, before the toggles. */
  datatype Components = Components(buoyancy: Vec3, viscous: Vec3, pressure: Vec3, slamming: Vec3)

  /**
   * The four forces of a piece whose lookup gave entry: the viscosity
   * coefficient from the body's speed and the fluid travel length, then
   * buoyancy, viscous resistance, pressure drag and slamming, slamming
   * reading the given buffers.
   */
  function PieceComponents(fs: ForceStep, triangle: TriangleInfo, entry: real, previous: TriangleBuffer, current: TriangleBuffer): Components {
    var n := fs.ctx.math;
    var s := fs.settings;
    var logRigidbodyVelocity := n.log10(Magnitude(n, fs.ctx.body.velocity));
    var logFluidTravelLength := entry * TravelLengthScaleFactor(n, fs.zMin, fs.zMax);
    var viscosityCoefficient := CalculateViscosityCoefficient(n, logRigidbodyVelocity, logFluidTravelLength, LogViscosity);
    Components(
      BuoyancyForce(DensityOfWater, fs.ctx.gravityY, triangle),
      ViscousWaterResistance(n, DensityOfWater, viscosityCoefficient, triangle),
      PressureDragForce(n, triangle, s.referenceSpeed,
        s.pdCoefficient1, s.pdCoefficient2, s.pdFallOffPower, s.sdCoefficient1, s.sdCoefficient2, s.sdFallOffPower),
      SlammingForce(n, previous, current, triangle,
        s.maxAcceleration, s.smRampUpPower, fs.ctx.body.mass, fs.totalArea, fs.fixedDeltaTime))
  }

  /**
   * netForce for a piece whose lookup gave entry: the sum of those of its
   * four forces whose toggle is on.
   */
  function PieceNetForce(fs: ForceStep, triangle: TriangleInfo, entry: real, previous: TriangleBuffer, current: TriangleBuffer): (r: Vec3)
    ensures var s := fs.settings;
      !s.debugBuoyancyForce && !s.debugViscousWaterResistance && !s.debugPressureDrag && !s.debugSlammingForce ==> r == Zero
    ensures var s := fs.settings;
      s.debugBuoyancyForce && !s.debugViscousWaterResistance && !s.debugPressureDrag && !s.debugSlammingForce ==>
        r == BuoyancyForce(DensityOfWater, fs.ctx.gravityY, triangle) && r.x == 0.0 && r.z == 0.0
  {
    var c := PieceComponents(fs, triangle, entry, previous, current);
    NetForce(fs.settings, c.buoyancy, c.viscous, c.pressure, c.slamming)
  }

  /** A piece's net force is the sum of exactly those of its four forces whose toggle is on. */
  lemma PieceNetForceIsToggledSum(fs: ForceStep, triangle: TriangleInfo, entry: real, previous: TriangleBuffer, current: TriangleBuffer)
    ensures var s := fs.settings;
      var c := PieceComponents(fs, triangle, entry, previous, current);
      PieceNetForce(fs, triangle, entry, previous, current)
        == Add(Add(Add(On(s.debugBuoyancyForce, c.buoyancy), On(s.debugViscousWaterResistance, c.viscous)),
          On(s.debugPressureDrag, c.pressure)), On(s.debugSlammingForce, c.slamming))
  {
    var c := PieceComponents(fs, triangle, entry, previous, current);
    NetForceIsToggledSum(fs.settings, c.buoyancy, c.viscous, c.pressure, c.slamming);
  }

  /**
   * One iteration of the force loop: a piece whose re-queried centre height
   * is above water is skipped; otherwise the lookup either throws or the
   * piece's net force is applied at its centre, slamming reading the buffers
   * of the piece's original triangle.
   */
  function PieceForce(fs: ForceStep, triangle: TriangleInfo, previous: TriangleBuffer, current: TriangleBuffer): (r: PieceOutcome)
    ensures triangle.height > 0.0 ==> r == Skipped
    ensures r.Applied? ==> r.force.point == triangle.center && triangle.height <= 0.0
  {
    if triangle.height > 0.0 then Skipped
    else
      match LookUp(fs.ctx.math, fs.tableSize, fs.table, LookUpKey(fs.ctx.math, triangle.center.z, fs.zMin, fs.zMax))
      case None => LookUpFailed
      case Some(entry) => Applied(AppliedForce(PieceNetForce(fs, triangle, entry, previous, current), triangle.center))
  }

  /** For a piece not above water, the outcome is decided by the lookup alone. */
  lemma PieceForceByLookUp(fs: ForceStep, triangle: TriangleInfo, previous: TriangleBuffer, current: TriangleBuffer)
    requires triangle.height <= 0.0
    ensures var entry := LookUp(fs.ctx.math, fs.tableSize, fs.table, LookUpKey(fs.ctx.math, triangle.center.z, fs.zMin, fs.zMax));
      PieceForce(fs, triangle, previous, current) ==
        if entry.None? then LookUpFailed
        else Applied(AppliedForce(PieceNetForce(fs, triangle, entry.value, previous, current), triangle.center))
  {
  }

  // ---------------------------------------------------------------------
  // The whole force loop.

  /** The builder's lists are in lockstep and every index names a buffer slot. */
  ghost predicate Indexed(ts: seq<TriangleInfo>, indices: seq<int>, previous: seq<TriangleBuffer>, current: seq<TriangleBuffer>) {
    && |indices| == |ts|
    && |previous| == |current|
    && forall k :: 0 <= k < |indices| ==> 0 <= indices[k] < |previous|
  }

  /** The forces applied so far, and whether no lookup has thrown. */
  datatype Outcome = Outcome(applied: seq<AppliedForce>, completed: bool)

  /** The outcome of the force loop over the first count pieces; it stops at the first lookup that throws. */
  function Forces(fs: ForceStep, ts: seq<TriangleInfo>, indices: seq<int>,
    previous: seq<TriangleBuffer>, current: seq<TriangleBuffer>, count: nat): (r: Outcome)
    requires Indexed(ts, indices, previous, current) && count <= |ts|
    ensures |r.applied| <= count
  {
    if count == 0 then Outcome([], true)
    else
      var prior := Forces(fs, ts, indices, previous, current, count - 1);
      if !prior.completed then prior
      else
        var index := indices[count - 1];
        match PieceForce(fs, ts[count - 1], previous[index], current[index])
        case Skipped => prior
        case Applied(f) => Outcome(prior.applied + [f], true)
        case LookUpFailed => Outcome(prior.applied, false)
  }

  /** One more piece: its outcome extends, leaves or stops the loop's outcome. */
  lemma ForcesNext(fs: ForceStep, ts: seq<TriangleInfo>, indices: seq<int>,
    previous: seq<TriangleBuffer>, current: seq<TriangleBuffer>, count: nat, outcome: PieceOutcome)
    requires Indexed(ts, indices, previous, current) && count < |ts|
    requires Forces(fs, ts, indices, previous, current, count).completed
    requires outcome == PieceForce(fs, ts[count], previous[indices[count]], current[indices[count]])
    ensures var prior := Forces(fs, ts, indices, previous, current, count);
      Forces(fs, ts, indices, previous, current, count + 1) ==
        match outcome
        case Skipped => prior
        case Applied(f) => Outcome(prior.applied + [f], true)
        case LookUpFailed => Outcome(prior.applied, false)
  {
  }

  /** The loop runs to the end exactly when no piece's lookup throws. */
  lemma {:induction false} ForcesCompleteUnlessLookUpFails(fs: ForceStep, ts: seq<TriangleInfo>, indices: seq<int>,
    previous: seq<TriangleBuffer>, current: seq<TriangleBuffer>, count: nat)
    requires Indexed(ts, indices, previous, current) && count <= |ts|
    ensures Forces(fs, ts, indices, previous, current, count).completed <==>
      forall k :: 0 <= k < count ==> !PieceForce(fs, ts[k], previous[indices[k]], current[indices[k]]).LookUpFailed?
  {
    if count > 0 {
      ForcesCompleteUnlessLookUpFails(fs, ts, indices, previous, current, count - 1);
    }
  }

  /** Once a lookup has thrown, later pieces change nothing. */
  lemma {:induction false} ForcesStopAtFailure(fs: ForceStep, ts: seq<TriangleInfo>, indices: seq<int>,
    previous: seq<TriangleBuffer>, current: seq<TriangleBuffer>, count: nat, later: nat)
    requires Indexed(ts, indices, previous, current) && count <= later <= |ts|
    requires !Forces(fs, ts, indices, previous, current, count).completed
    ensures Forces(fs, ts, indices, previous, current, later) == Forces(fs, ts, indices, previous, current, count)
  {
    if later > count {
      ForcesStopAtFailure(fs, ts, indices, previous, current, count, later - 1);
    }
  }

  /**
   * Forces are applied only at the centres of pieces whose re-queried height
   * is not above water, at most one per piece, in the order of the pieces.
   */
  lemma {:induction false} ForcesAtSubmergedCentres(fs: ForceStep, ts: seq<TriangleInfo>, indices: seq<int>,
    previous: seq<TriangleBuffer>, current: seq<TriangleBuffer>, count: nat)
    requires Indexed(ts, indices, previous, current) && count <= |ts|
    ensures |Forces(fs, ts, indices, previous, current, count).applied| <= count
    ensures forall f :: f in Forces(fs, ts, indices, previous, current, count).applied ==>
      exists k :: 0 <= k < count && f.point == ts[k].center && ts[k].height <= 0.0
  {
    if count > 0 {
      var last := count - 1;
      ForcesAtSubmergedCentres(fs, ts, indices, previous, current, last);
      var prior := Forces(fs, ts, indices, previous, current, last);
      if prior.completed {
        var outcome := PieceForce(fs, ts[last], previous[indices[last]], current[indices[last]]);
        ForcesNext(fs, ts, indices, previous, current, last, outcome);
        if outcome.Applied? {
          assert Forces(fs, ts, indices, previous, current, count).applied == prior.applied + [outcome.force];
        }
      }
    }
  }

  /** With every toggle off each applied force is zero. */
  lemma {:induction false} TogglesOffApplyNothing(fs: ForceStep, ts: seq<TriangleInfo>, indices: seq<int>,
    previous: seq<TriangleBuffer>, current: seq<TriangleBuffer>, count: nat)
    requires Indexed(ts, indices, previous, current) && count <= |ts|
    requires !fs.settings.debugBuoyancyForce && !fs.settings.debugViscousWaterResistance
    requires !fs.settings.debugPressureDrag && !fs.settings.debugSlammingForce
    ensures forall f :: f in Forces(fs, ts, indices, previous, current, count).applied ==> f.force == Zero
  {
    if count > 0 {
      TogglesOffApplyNothing(fs, ts, indices, previous, current, count - 1);
    }
  }


  /** Whether the range and table of fs let every piece with a centre in range be looked up. */
  ghost predicate LookUpsSucceed(fs: ForceStep, ts: seq<TriangleInfo>) {
    && DivideLaws(fs.ctx.math)
    && fs.tableSize >= 2 && |fs.table| == fs.tableSize
    && fs.zMin < fs.zMax
    && forall k :: 0 <= k < |ts| ==> fs.zMin <= ts[k].center.z <= fs.zMax
  }

  /** With a built table and centres spread along z, no lookup throws. */
  lemma {:induction false} ForcesComplete(fs: ForceStep, ts: seq<TriangleInfo>, indices: seq<int>,
    previous: seq<TriangleBuffer>, current: seq<TriangleBuffer>, count: nat)
    requires Indexed(ts, indices, previous, current) && count <= |ts|
    requires LookUpsSucceed(fs, ts)
    ensures Forces(fs, ts, indices, previous, current, count).completed
  {
    if count > 0 {
      ForcesComplete(fs, ts, indices, previous, current, count - 1);
      var triangle := ts[count - 1];
      LookUpKeyInUnit(fs.ctx.math, triangle.center.z, fs.zMin, fs.zMax);
      var index := indices[count - 1];
      assert !PieceForce(fs, triangle, previous[index], current[index]).LookUpFailed?;
    }
  }

  /** The value the TotalArea property returns: the cached one, or the builder's while nothing is cached. */
  function CachedArea(cached: real, builderArea: real): real {
    if cached < 0.0 then builderArea else cached
  }

  class WaterInteraction {
    var settings: Settings
    var curveLookUpTable: CurveLookUpTable
    var triangleBuilder: TriangleBuilder
    var totalArea: real
    var applied: seq<AppliedForce>  // the calls Rigidbody.AddForceAtPosition received, in order

    constructor (s: Settings, table: CurveLookUpTable, builder: TriangleBuilder)
      ensures settings == s && curveLookUpTable == table && triangleBuilder == builder
      ensures totalArea == -1.0 && applied == []
    {
      settings := s;
      curveLookUpTable := table;
      triangleBuilder := builder;
      totalArea := -1.0;
      applied := [];
    }

    /** The TotalArea property: reads the builder's area while the cache is negative, and caches it. */
    method GetTotalArea() returns (r: real)
      modifies this`totalArea
      ensures r == CachedArea(old(totalArea), triangleBuilder.TotalArea)
      ensures totalArea == r
    {
      if totalArea < 0.0 {
        totalArea := triangleBuilder.TotalArea;
      }
      r := totalArea;
    }

    /** The z-range loop of CalculateForce. */
    method CentreRange(ts: seq<TriangleInfo>) returns (zMin: real, zMax: real)
      ensures (zMin, zMax) == ZRange(ts, |ts|)
    {
      zMin := FloatMax;
      zMax := -FloatMax;
      var i := 0;
      while i < |ts|
        invariant 0 <= i <= |ts|
        invariant (zMin, zMax) == ZRange(ts, i)
      {
        var triangle := ts[i];
        if triangle.center.z < zMin {
          zMin := triangle.center.z;
        }
        if triangle.center.z > zMax {
          zMax := triangle.center.z;
        }
        i := i + 1;
      }
    }

    /** The force step's inputs once the range is known and the total area read. */
    function StepInputs(ctx: Context, fixedDeltaTime: real, area: real, zMin: real, zMax: real): ForceStep
      reads this, curveLookUpTable
    {
      ForceStep(ctx, settings, fixedDeltaTime, area,
        curveLookUpTable.lookUpTableSize, curveLookUpTable.lookUpTable, zMin, zMax)
    }

    /**
     * CalculateForce: the range of the centres, then one application of the
     * toggled force sum per submerged piece, stopping where a lookup throws.
     */
    method CalculateForce(ctx: Context, fixedDeltaTime: real) returns (completed: bool)
      requires Indexed(triangleBuilder.SubmergedTriangles, triangleBuilder.TriangleBufferIndices,
        triangleBuilder.PreviousBuffers[..], triangleBuilder.CurrentBuffers[..])
      modifies this`totalArea, this`applied
      ensures totalArea == old(totalArea) || (old(totalArea) < 0.0 && totalArea == triangleBuilder.TotalArea)
      ensures var ts := triangleBuilder.SubmergedTriangles;
        var (zMin, zMax) := ZRange(ts, |ts|);
        var outcome := Forces(StepInputs(ctx, fixedDeltaTime, CachedArea(old(totalArea), triangleBuilder.TotalArea), zMin, zMax),
          ts, triangleBuilder.TriangleBufferIndices, triangleBuilder.PreviousBuffers[..], triangleBuilder.CurrentBuffers[..], |ts|);
        completed == outcome.completed && applied == old(applied) + outcome.applied
    {
      var ts := triangleBuilder.SubmergedTriangles;
      var indices := triangleBuilder.TriangleBufferIndices;
      ghost var previous, current := triangleBuilder.PreviousBuffers[..], triangleBuilder.CurrentBuffers[..];
      var zMin, zMax := CentreRange(ts);
      ghost var fs := StepInputs(ctx, fixedDeltaTime, CachedArea(totalArea, triangleBuilder.TotalArea), zMin, zMax);
      ghost var before := applied;
      ghost var total0 := totalArea;

      var i := 0;
      while i < |ts|
        invariant 0 <= i <= |ts|
        invariant totalArea == total0 || (total0 < 0.0 && totalArea == triangleBuilder.TotalArea)
        invariant CachedArea(totalArea, triangleBuilder.TotalArea) == fs.totalArea
        invariant Forces(fs, ts, indices, previous, current, i).completed
        invariant applied == before + Forces(fs, ts, indices, previous, current, i).applied
      {
        var stop := ForceTurn(ctx, fixedDeltaTime, fs, ts, indices, previous, current, i, zMin, zMax, before, total0);
        if stop {
          return false;
        }
        i := i + 1;
      }
      assert i == |ts|;
      completed := true;
    }

    /**
     * One turn of the force loop: a piece above the water is skipped, any
     * other gets its force unless the lookup throws, which ends the loop.
     */
    method ForceTurn(ctx: Context, fixedDeltaTime: real, ghost fs: ForceStep, ts: seq<TriangleInfo>, indices: seq<int>,
      ghost previous: seq<TriangleBuffer>, ghost current: seq<TriangleBuffer>, i: nat, zMin: real, zMax: real,
      ghost before: seq<AppliedForce>, ghost total0: real) returns (stop: bool)
      requires i < |ts| && Indexed(ts, indices, previous, current)
      requires previous == triangleBuilder.PreviousBuffers[..] && current == triangleBuilder.CurrentBuffers[..]
      requires fs == StepInputs(ctx, fixedDeltaTime, CachedArea(totalArea, triangleBuilder.TotalArea), zMin, zMax)
      requires totalArea == total0 || (total0 < 0.0 && totalArea == triangleBuilder.TotalArea)
      requires Forces(fs, ts, indices, previous, current, i).completed
      requires applied == before + Forces(fs, ts, indices, previous, current, i).applied
      modifies this`totalArea, this`applied
      ensures totalArea == total0 || (total0 < 0.0 && totalArea == triangleBuilder.TotalArea)
      ensures CachedArea(totalArea, triangleBuilder.TotalArea) == fs.totalArea
      ensures var r := Forces(fs, ts, indices, previous, current, if stop then |ts| else i + 1);
        r.completed == !stop && applied == before + r.applied
    {
      var triangle := ts[i];
      var outcome := Skipped;
      if triangle.height <= 0.0 {
        outcome := ApplyPieceForce(ctx, fixedDeltaTime, fs, triangle, indices[i], zMin, zMax);
      }
      ForcesNext(fs, ts, indices, previous, current, i, outcome);
      stop := outcome.LookUpFailed?;
      if stop {
        ForcesStopAtFailure(fs, ts, indices, previous, current, i + 1, |ts|);
      }
    }

    /**
     * The body of the force loop for a piece that is not above water: look
     * up the travel length, read the total area and apply the piece's net
     * force at its centre.
     */
    method ApplyPieceForce(ctx: Context, fixedDeltaTime: real, ghost fs: ForceStep, triangle: TriangleInfo, triangleBufferIndex: int,
      zMin: real, zMax: real) returns (outcome: PieceOutcome)
      requires triangle.height <= 0.0
      requires 0 <= triangleBufferIndex < triangleBuilder.PreviousBuffers.Length
      requires triangleBuilder.PreviousBuffers.Length == triangleBuilder.CurrentBuffers.Length
      requires fs == StepInputs(ctx, fixedDeltaTime, CachedArea(totalArea, triangleBuilder.TotalArea), zMin, zMax)
      modifies this`totalArea, this`applied
      ensures outcome == PieceForce(fs, triangle, triangleBuilder.PreviousBuffers[triangleBufferIndex],
        triangleBuilder.CurrentBuffers[triangleBufferIndex])
      ensures applied == old(applied) + (if outcome.Applied? then [outcome.force] else [])
      ensures totalArea == old(totalArea) || (old(totalArea) < 0.0 && totalArea == triangleBuilder.TotalArea)
      ensures CachedArea(totalArea, triangleBuilder.TotalArea) == fs.totalArea
    {
      var n := ctx.math;
      var lookUpKey := LookUpKey(n, triangle.center.z, zMin, zMax);
      var entry := LookUp(n, curveLookUpTable.lookUpTableSize, curveLookUpTable.lookUpTable, lookUpKey);
      ghost var previous, current := triangleBuilder.PreviousBuffers[triangleBufferIndex], triangleBuilder.CurrentBuffers[triangleBufferIndex];
      PieceForceByLookUp(fs, triangle, previous, current);
      if entry.None? {
        return LookUpFailed;
      }
      var area := GetTotalArea();
      var step := StepInputs(ctx, fixedDeltaTime, area, zMin, zMax);
      assert step == fs;
      var netForce := PieceNetForce(step, triangle, entry.value,
        triangleBuilder.PreviousBuffers[triangleBufferIndex], triangleBuilder.CurrentBuffers[triangleBufferIndex]);
      applied := applied + [AppliedForce(netForce, triangle.center)];
      outcome := Applied(AppliedForce(netForce, triangle.center));
    }

    /**
     * FixedUpdate: rebuild the submerged pieces, then apply forces only when
     * there is at least one.
     */
    method FixedUpdate(ctx: Context, time: real, fixedDeltaTime: real) returns (completed: bool)
      requires triangleBuilder.Valid()
      modifies this`totalArea, this`applied
      modifies triangleBuilder, triangleBuilder.PreviousBuffers, triangleBuilder.CurrentBuffers, triangleBuilder.currentVertices
      ensures triangleBuilder.Valid() && triangleBuilder.timeStamp == time
      ensures var st := triangleBuilder.StepOf(ctx);
        var mesh := triangleBuilder.Mesh();
        triangleBuilder.SubmergedTriangles == AllPieces(st, mesh, TriangleCount(mesh))
      ensures Indexed(triangleBuilder.SubmergedTriangles, triangleBuilder.TriangleBufferIndices,
        triangleBuilder.PreviousBuffers[..], triangleBuilder.CurrentBuffers[..])
      ensures |triangleBuilder.SubmergedTriangles| == 0 ==> completed && applied == old(applied) && totalArea == old(totalArea)
      ensures |triangleBuilder.SubmergedTriangles| > 0 ==>
        var ts := triangleBuilder.SubmergedTriangles;
        var (zMin, zMax) := ZRange(ts, |ts|);
        var outcome := Forces(StepInputs(ctx, fixedDeltaTime, CachedArea(old(totalArea), triangleBuilder.TotalArea), zMin, zMax),
          ts, triangleBuilder.TriangleBufferIndices, triangleBuilder.PreviousBuffers[..], triangleBuilder.CurrentBuffers[..], |ts|);
        completed == outcome.completed && applied == old(applied) + outcome.applied
    {
      triangleBuilder.CreateTriangleData(ctx, time);
      ghost var st := triangleBuilder.StepOf(ctx);
      ghost var mesh := triangleBuilder.Mesh();
      ConcatOwnersSameLength(TriangleInfos(st, mesh), TriangleCount(mesh));
      OwnersSortedInRange(TriangleInfos(st, mesh), TriangleCount(mesh));
      completed := true;
      if |triangleBuilder.SubmergedTriangles| > 0 {
        completed := CalculateForce(ctx, fixedDeltaTime);
      }
    }
  }
}
