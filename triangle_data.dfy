/*
 * The constructors of WaterInteraction/TriangleData.cs: the metrics of a
 * submerged piece (TriangleInfo) and the buffer entry of an original hull
 * triangle (TriangleBuffer). The water is the height field of the context,
 * queried at the piece's centre.
 */
module TriangleData {
  import opened UnityMath
  import opened InteractionTypes
  import opened InteractionUtils

  /** Below this speed the cosine is taken as zero. */
  const MinCosineSpeed: real := 0.0001

  /** The unit normal Cross(v2 - v1, v3 - v1).normalized of a piece with the given corners. */
  function PieceNormal(n: Numerics, v1: Vec3, v2: Vec3, v3: Vec3): Vec3 {
    Normalized(n, Cross(Sub(v2, v1), Sub(v3, v1)))
  }

  /** The cosine between velocity and normal, zero for an almost still piece. */
  function VelocityCosine(n: Numerics, velocity: Vec3, normal: Vec3): real {
    if Magnitude(n, velocity) < MinCosineSpeed then 0.0
    else n.divide(Dot(velocity, normal), Magnitude(n, velocity))
  }

  /** new TriangleInfo(vi1, vi2, vi3, triangleType, rB, timeStamp). */
  function NewTriangleInfo(n: Numerics, water: (Vec3, real) -> real, vi1: VertexInfo, vi2: VertexInfo, vi3: VertexInfo,
    triangleType: int, body: RigidbodyState, timeStamp: real): (r: TriangleInfo)
    ensures r.center == GetTriangleCenterAsWritten(n, vi1, vi2, vi3, triangleType)
    ensures r.height == water(r.center, timeStamp)
    ensures r.velocity == GetTriangleVelocity(r.center, body)
    ensures r.area == GetTriangleArea(n, vi1.globalVertex, vi2.globalVertex, vi3.globalVertex)
    ensures r.normal == PieceNormal(n, vi1.globalVertex, vi2.globalVertex, vi3.globalVertex)
    ensures r.cosine == VelocityCosine(n, r.velocity, r.normal)
  {
    var v1 := vi1.globalVertex;
    var v2 := vi2.globalVertex;
    var v3 := vi3.globalVertex;
    var center := GetTriangleCenterAsWritten(n, vi1, vi2, vi3, triangleType);
    var height := water(center, timeStamp);
    var normal := PieceNormal(n, v1, v2, v3);
    var velocity := GetTriangleVelocity(center, body);
    var cosine := VelocityCosine(n, velocity, normal);
    var area := GetTriangleArea(n, v1, v2, v3);
    TriangleInfo(center, height, normal, area, velocity, cosine)
  }

  /** new TriangleBuffer(v1, v2, v3, rB): nothing submerged yet, the centroid's velocity and the full area. */
  function NewTriangleBuffer(n: Numerics, v1: Vec3, v2: Vec3, v3: Vec3, body: RigidbodyState): (r: TriangleBuffer)
    ensures r.submergedArea == 0.0
    ensures r.velocity == GetTriangleVelocity(Centroid(v1, v2, v3), body)
    ensures r.originalArea == GetTriangleArea(n, v1, v2, v3)
  {
    TriangleBuffer(0.0, GetTriangleArea(n, v1, v2, v3), GetTriangleVelocity(Centroid(v1, v2, v3), body))
  }

  /** The normal is unit length (or zero for a degenerate piece) and perpendicular to both edges at v1. */
  lemma {:induction false} PieceNormalFacts(n: Numerics, v1: Vec3, v2: Vec3, v3: Vec3)
    requires SqrtLaws(n)
    ensures PieceNormal(n, v1, v2, v3) == Zero || Dot(PieceNormal(n, v1, v2, v3), PieceNormal(n, v1, v2, v3)) == 1.0
    ensures Dot(PieceNormal(n, v1, v2, v3), Sub(v2, v1)) == 0.0
    ensures Dot(PieceNormal(n, v1, v2, v3), Sub(v3, v1)) == 0.0
  {
    var c := Cross(Sub(v2, v1), Sub(v3, v1));
    NormalizedUnitOrZero(n, c);
    CrossOrthogonal(Sub(v2, v1), Sub(v3, v1));
    NormalizedDotSign(n, c, Sub(v2, v1));
    NormalizedDotSign(n, c, Sub(v3, v1));
  }

  /** A quotient by a positive denominator stays in [-1, 1] when the numerator's size is at most it. */
  lemma QuotientWithinUnit(num: real, den: real)
    requires den > 0.0 && -den <= num <= den
    ensures -1.0 <= num / den <= 1.0
  {
    var q := num / den;
    assert q * den == num;
    if q > 1.0 { ProductPositive(q - 1.0, den, num - den); }
    if q < -1.0 { ProductPositive(-1.0 - q, den, -den - num); }
  }

  /** The cosine is zero for an almost still piece and otherwise in [-1, 1] against a unit-or-zero normal. */
  lemma {:induction false} VelocityCosineBounds(n: Numerics, velocity: Vec3, normal: Vec3)
    requires SqrtLaws(n) && DivideLaws(n)
    requires normal == Zero || Dot(normal, normal) == 1.0
    ensures Magnitude(n, velocity) < MinCosineSpeed ==> VelocityCosine(n, velocity, normal) == 0.0
    ensures -1.0 <= VelocityCosine(n, velocity, normal) <= 1.0
  {
    var m := Magnitude(n, velocity);
    if m >= MinCosineSpeed {
      DotBoundedByMagnitude(n, velocity, normal);
      DivideExact(n, Dot(velocity, normal), m);
      QuotientWithinUnit(Dot(velocity, normal), m);
    }
  }

  /**
   * What the constructor promises of every piece: a unit (or zero) normal
   * perpendicular to the piece, a cosine in [-1, 1] that is zero below the
   * minimum speed, and a non-negative area.
   */
  lemma {:induction false} TriangleInfoFacts(n: Numerics, water: (Vec3, real) -> real, vi1: VertexInfo, vi2: VertexInfo, vi3: VertexInfo,
    triangleType: int, body: RigidbodyState, timeStamp: real)
    requires SqrtLaws(n) && DivideLaws(n) && TrigLaws(n)
    ensures var r := NewTriangleInfo(n, water, vi1, vi2, vi3, triangleType, body, timeStamp);
      && (r.normal == Zero || Dot(r.normal, r.normal) == 1.0)
      && Dot(r.normal, Sub(vi2.globalVertex, vi1.globalVertex)) == 0.0
      && Dot(r.normal, Sub(vi3.globalVertex, vi1.globalVertex)) == 0.0
      && -1.0 <= r.cosine <= 1.0
      && (Magnitude(n, r.velocity) < MinCosineSpeed ==> r.cosine == 0.0)
      && r.area >= 0.0
  {
    var r := NewTriangleInfo(n, water, vi1, vi2, vi3, triangleType, body, timeStamp);
    PieceNormalFacts(n, vi1.globalVertex, vi2.globalVertex, vi3.globalVertex);
    VelocityCosineBounds(n, r.velocity, r.normal);
    AreaNonNegative(n, vi1.globalVertex, vi2.globalVertex, vi3.globalVertex);
  }

  /**
   * Above the speed guard the stored cosine is the projection of the
   * velocity on the normal divided by the speed: cosine * |v| == dot(v, n).
   */
  lemma {:induction false} CosineIsProjection(n: Numerics, water: (Vec3, real) -> real, vi1: VertexInfo, vi2: VertexInfo, vi3: VertexInfo,
    triangleType: int, body: RigidbodyState, timeStamp: real)
    requires SqrtLaws(n) && DivideLaws(n)
    ensures var r := NewTriangleInfo(n, water, vi1, vi2, vi3, triangleType, body, timeStamp);
      Magnitude(n, r.velocity) >= MinCosineSpeed ==> r.cosine * Magnitude(n, r.velocity) == Dot(r.velocity, r.normal)
  {
    var r := NewTriangleInfo(n, water, vi1, vi2, vi3, triangleType, body, timeStamp);
    var m := Magnitude(n, r.velocity);
    if m >= MinCosineSpeed {
      DivideExact(n, Dot(r.velocity, r.normal), m);
      assert r.cosine == Dot(r.velocity, r.normal) / m;
    }
  }

  /** The heights of three vertices read off the flat water: each is the vertex's y coordinate. */
  predicate HeightsOnFlatWater(vi1: VertexInfo, vi2: VertexInfo, vi3: VertexInfo) {
    vi1.height == vi1.globalVertex.y && vi2.height == vi2.globalVertex.y && vi3.height == vi3.globalVertex.y
  }

  lemma BarycentricBelowSurface(a: Vec3, b: Vec3, c: Vec3, w1: real, w2: real, w3: real)
    requires 0.0 <= w1 && 0.0 <= w2 && 0.0 <= w3 && a.y <= 0.0 && b.y <= 0.0 && c.y <= 0.0
    ensures Barycentric(a, b, c, w1, w2, w3).y <= 0.0
  {
    ProductNonNegative(w1, -a.y, -(w1 * a.y));
    ProductNonNegative(w2, -b.y, -(w2 * b.y));
    ProductNonNegative(w3, -c.y, -(w3 * c.y));
  }

  /**
   * On the flat patch the height re-queried at the centre of a submerged
   * piece is never above the water: the centre lies inside the piece.
   */
  lemma {:induction false} SubmergedCentreBelowFlatWater(n: Numerics, water: (Vec3, real) -> real, vi1: VertexInfo, vi2: VertexInfo, vi3: VertexInfo,
    triangleType: int, body: RigidbodyState, timeStamp: real)
    requires DivideLaws(n) && (forall p, t :: water(p, t) == p.y)
    requires HeightsOnFlatWater(vi1, vi2, vi3) && SubmergedShape(vi1, vi2, vi3, triangleType)
    requires vi1.height <= 0.0 && vi2.height <= 0.0 && vi3.height <= 0.0
    ensures NewTriangleInfo(n, water, vi1, vi2, vi3, triangleType, body, timeStamp).height <= 0.0
  {
    var c := GetTriangleCenterAsWritten(n, vi1, vi2, vi3, triangleType);
    CenterInsidePiece(n, vi1, vi2, vi3, triangleType);
    var w1, w2, w3 :| 0.0 <= w1 && 0.0 <= w2 && 0.0 <= w3 && w1 + w2 + w3 == 1.0
      && c == Barycentric(vi1.globalVertex, vi2.globalVertex, vi3.globalVertex, w1, w2, w3);
    BarycentricBelowSurface(vi1.globalVertex, vi2.globalVertex, vi3.globalVertex, w1, w2, w3);
  }

  /** A fresh buffer entry has a non-negative original area. */
  lemma NewTriangleBufferArea(n: Numerics, v1: Vec3, v2: Vec3, v3: Vec3, body: RigidbodyState)
    requires SqrtLaws(n) && TrigLaws(n)
    ensures NewTriangleBuffer(n, v1, v2, v3, body).originalArea >= 0.0
  {
    AreaNonNegative(n, v1, v2, v3);
  }
}
