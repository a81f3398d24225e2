/*
 * The records of MeshData.cs, used by the legacy pipeline
 * (HullMeshModifier.cs and WaterPhysicsMath.cs): a sampled hull vertex, the
 * metrics of one triangle against the water, and the slamming state of one
 * original hull triangle.
 *
 * VertexData holds the same three values as the refined pipeline's
 * VertexInfo (distance to water, clockwise slot, world position), so the
 * model uses that record for both. The source's VertexData is a class
 * shared through references; every use reads fields written in the same
 * pass, so a value models it (see the README).
 */
module MeshData {
  import opened UnityMath
  import opened InteractionTypes
  import opened InteractionUtils
  import Refined = TriangleData

  /** VertexData: `height` is the source's `distance`, `clockwiseOrder` its `clockwiseIndex`, `globalVertex` its `vertexGlobalPos`. */
  type VertexData = VertexInfo

  /** The metrics of one triangle (struct TriangleData). */
  datatype TriangleData = TriangleData(
    v1: Vec3, v2: Vec3, v3: Vec3,
    center: Vec3,
    velocity: Vec3,
    cosine: real,
    centerDistance: real,
    area: real,
    normal: Vec3)

  /** The slamming state of one original hull triangle (class SlammingForceData). */
  datatype SlammingForceData = SlammingForceData(
    originalArea: real,
    submergedArea: real,
    previousSubmergedArea: real,
    triangleCenter: Vec3,
    velocity: Vec3,
    previousVelocity: Vec3)

  /** `new SlammingForceData()`: every field at its default. */
  const NewSlammingForceData: SlammingForceData := SlammingForceData(0.0, 0.0, 0.0, Zero, Zero, Zero)

  /** dot(v, n) / |v|, with no guard against a still triangle. */
  function UnguardedCosine(n: Numerics, velocity: Vec3, normal: Vec3): real {
    n.divide(Dot(velocity, normal), Magnitude(n, velocity))
  }

  /**
   * new TriangleData(p1, p2, p3, triangleType, hullRB, timeSinceStart):
   * triangleType 0 is a piece with its apex up, 1 one with its apex down,
   * 2 a triangle above the water (centroid).
   */
  function NewTriangleData(n: Numerics, water: (Vec3, real) -> real, p1: VertexData, p2: VertexData, p3: VertexData,
    triangleType: int, body: RigidbodyState, timeSinceStart: real): (r: TriangleData)
    ensures r.v1 == p1.globalVertex && r.v2 == p2.globalVertex && r.v3 == p3.globalVertex
    ensures r.center == GetTriangleCenterAsWritten(n, p1, p2, p3, triangleType)
    ensures r.centerDistance == water(r.center, timeSinceStart)
    ensures r.velocity == GetTriangleVelocity(r.center, body)
    ensures r.normal == Refined.PieceNormal(n, r.v1, r.v2, r.v3)
    ensures r.cosine == UnguardedCosine(n, r.velocity, r.normal)
    ensures r.area == GetTriangleArea(n, r.v1, r.v2, r.v3)
  {
    var v1 := p1.globalVertex;
    var v2 := p2.globalVertex;
    var v3 := p3.globalVertex;
    var center := GetTriangleCenterAsWritten(n, p1, p2, p3, triangleType);
    var centerDistance := water(center, timeSinceStart);
    var normal := Refined.PieceNormal(n, v1, v2, v3);
    var velocity := GetTriangleVelocity(center, body);
    var cosine := UnguardedCosine(n, velocity, normal);
    var area := GetTriangleArea(n, v1, v2, v3);
    TriangleData(v1, v2, v3, center, velocity, cosine, centerDistance, area, normal)
  }

  /** The fields the force formulas read, as the refined pipeline's record of a piece. */
  function Metrics(t: TriangleData): TriangleInfo {
    TriangleInfo(t.center, t.centerDistance, t.normal, t.area, t.velocity, t.cosine)
  }

  /**
   * What the constructor promises: a unit (or zero) normal perpendicular to
   * the triangle, a non-negative area, a centre inside a submerged piece
   * or at the centroid of a type-2 triangle, and, for a moving triangle
   * (|v| above Unity's normalisation threshold), a cosine in [-1, 1].
   */
  lemma {:induction false} TriangleDataFacts(n: Numerics, water: (Vec3, real) -> real, p1: VertexData, p2: VertexData, p3: VertexData,
    triangleType: int, body: RigidbodyState, timeSinceStart: real)
    requires SqrtLaws(n) && DivideLaws(n) && TrigLaws(n)
    ensures var r := NewTriangleData(n, water, p1, p2, p3, triangleType, body, timeSinceStart);
      && (r.normal == Zero || Dot(r.normal, r.normal) == 1.0)
      && Dot(r.normal, Sub(r.v2, r.v1)) == 0.0
      && Dot(r.normal, Sub(r.v3, r.v1)) == 0.0
      && r.area >= 0.0
      && (triangleType == 2 ==> r.center == Centroid(r.v1, r.v2, r.v3))
      && (SubmergedShape(p1, p2, p3, triangleType) ==> InTriangle(r.center, r.v1, r.v2, r.v3))
      && (Magnitude(n, r.velocity) > 0.0 ==> -1.0 <= r.cosine <= 1.0)
  {
    var r := NewTriangleData(n, water, p1, p2, p3, triangleType, body, timeSinceStart);
    Refined.PieceNormalFacts(n, p1.globalVertex, p2.globalVertex, p3.globalVertex);
    AreaNonNegative(n, p1.globalVertex, p2.globalVertex, p3.globalVertex);
    if SubmergedShape(p1, p2, p3, triangleType) {
      CenterInsidePiece(n, p1, p2, p3, triangleType);
    }
    var m := Magnitude(n, r.velocity);
    if m > 0.0 {
      DotBoundedByMagnitude(n, r.velocity, r.normal);
      DivideExact(n, Dot(r.velocity, r.normal), m);
      Refined.QuotientWithinUnit(Dot(r.velocity, r.normal), m);
    }
  }

  /**
   * For a moving triangle the stored cosine is the projection of the
   * velocity on the normal divided by the speed: cosine * |v| == dot(v, n).
   */
  lemma {:induction false} UnguardedCosineIsProjection(n: Numerics, water: (Vec3, real) -> real, p1: VertexData, p2: VertexData, p3: VertexData,
    triangleType: int, body: RigidbodyState, timeSinceStart: real)
    requires SqrtLaws(n) && DivideLaws(n)
    ensures var r := NewTriangleData(n, water, p1, p2, p3, triangleType, body, timeSinceStart);
      Magnitude(n, r.velocity) > 0.0 ==> r.cosine * Magnitude(n, r.velocity) == Dot(r.velocity, r.normal)
  {
    var r := NewTriangleData(n, water, p1, p2, p3, triangleType, body, timeSinceStart);
    var m := Magnitude(n, r.velocity);
    if m > 0.0 {
      DivideExact(n, Dot(r.velocity, r.normal), m);
      assert r.cosine == Dot(r.velocity, r.normal) / m;
    }
  }

  /**
   * Without the refined pipeline's speed guard, a still triangle's cosine
   * is the undefined quotient 0 / 0 (NaN in IEEE arithmetic), where the
   * refined pipeline stores 0.
   */
  lemma {:induction false} StillTriangleCosineUndefined(n: Numerics, normal: Vec3)
    requires SqrtLaws(n)
    ensures UnguardedCosine(n, Zero, normal) == n.divide(0.0, 0.0)
    ensures Refined.VelocityCosine(n, Zero, normal) == 0.0
  {
    StillMagnitude(n, normal);
  }

  lemma StillMagnitude(n: Numerics, normal: Vec3)
    requires SqrtLaws(n)
    ensures Magnitude(n, Zero) == 0.0 && Dot(Zero, normal) == 0.0
  {
    DotWithZero(normal);
    SqrtZero(n);
  }

  lemma DotWithZero(a: Vec3)
    ensures Dot(Zero, Zero) == 0.0 && Dot(Zero, a) == 0.0
  {
  }
}
