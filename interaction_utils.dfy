/*
 * The per-triangle geometry and force formulas of
 * WaterInteraction/WaterInteractionUtils.cs: where the pressure acts on a
 * submerged piece, how fast that point moves, the piece's area, and the
 * buoyancy, viscous, pressure-drag and slamming forces on it.
 *
 * WaterPhysicsMath.cs (the legacy pipeline) repeats the centre, velocity,
 * area, buoyancy and viscous formulas verbatim; module WaterPhysicsMath
 * reuses these definitions and models only what differs.
 */
module InteractionUtils {
  import opened UnityMath
  import opened InteractionTypes

  // ---------------------------------------------------------------------
  // Points on a triangle.

  /** (a + b) / 2f */
  function Midpoint(a: Vec3, b: Vec3): Vec3 {
    Vec3((a.x + b.x) / 2.0, (a.y + b.y) / 2.0, (a.z + b.z) / 2.0)
  }

  /** (a + b + c) / 3f */
  function Centroid(a: Vec3, b: Vec3, c: Vec3): Vec3 {
    Vec3((a.x + b.x + c.x) / 3.0, (a.y + b.y + c.y) / 3.0, (a.z + b.z + c.z) / 3.0)
  }

  /** from + (to - from) * t */
  function Along(from: Vec3, to: Vec3, t: real): Vec3 {
    Add(from, Scale(Sub(to, from), t))
  }

  /** The point with barycentric weights w1, w2, w3 on the corners a, b, c. */
  function Barycentric(a: Vec3, b: Vec3, c: Vec3, w1: real, w2: real, w3: real): Vec3 {
    Vec3(w1 * a.x + w2 * b.x + w3 * c.x, w1 * a.y + w2 * b.y + w3 * c.y, w1 * a.z + w2 * b.z + w3 * c.z)
  }

  /** A point of the closed triangle a, b, c. */
  ghost predicate InTriangle(p: Vec3, a: Vec3, b: Vec3, c: Vec3) {
    exists w1, w2, w3 :: 0.0 <= w1 && 0.0 <= w2 && 0.0 <= w3 && w1 + w2 + w3 == 1.0
      && p == Barycentric(a, b, c, w1, w2, w3)
  }

  // ---------------------------------------------------------------------
  // Centre of pressure.

  /**
   * The reference the centre formulas approximate: on a triangle whose depth
   * varies linearly along the median, from `a` at the apex by `b` towards the
   * base, the centre of pressure sits at this fraction of the median from the
   * apex. With s the fraction along the median, the width is proportional to s
   * and the pressure to a + b s, so the fraction is the ratio of the moments
   * integral of s^2 (a + b s) ds = a/3 + b/4 and integral of s (a + b s) ds = a/2 + b/3.
   */
  function PressureCentreFromApex(a: real, b: real): real
    requires a / 2.0 + b / 3.0 != 0.0
  {
    (a / 3.0 + b / 4.0) / (a / 2.0 + b / 3.0)
  }

  /** tCenter of a type-0 piece (apex up, base level below it). */
  function CenterParameterType0(n: Numerics, z0: real, h: real): real {
    n.divide(4.0 * z0 + 3.0 * h, 6.0 * z0 + 4.0 * h)
  }

  /** tCenter of a type-1 piece (base level on top, apex below it). */
  function CenterParameterType1(n: Numerics, z0: real, h: real): real {
    n.divide(2.0 * z0 + h, 6.0 * z0 + 2.0 * h)
  }

  /**
   * GetTriangleCenter as written. Type 0: vi1 is the apex, vi2 and vi3 share
   * a height below it. Type 1: vi1 and vi2 share a height, vi3 is the apex
   * below them. Any other type: the centroid.
   */
  function GetTriangleCenterAsWritten(n: Numerics, vi1: VertexInfo, vi2: VertexInfo, vi3: VertexInfo, triangleType: int): (r: Vec3)
    ensures var t := CenterParameterType0(n, vi1.height, vi2.height - vi1.height);
      triangleType == 0 ==> r == Barycentric(vi1.globalVertex, vi2.globalVertex, vi3.globalVertex, 1.0 - t, t / 2.0, t / 2.0)
    ensures var t := CenterParameterType1(n, vi1.height, vi3.height - vi1.height);
      triangleType == 1 ==> r == Barycentric(vi1.globalVertex, vi2.globalVertex, vi3.globalVertex, t / 2.0, t / 2.0, 1.0 - t)
    ensures triangleType != 0 && triangleType != 1 ==>
      r == Barycentric(vi1.globalVertex, vi2.globalVertex, vi3.globalVertex, 1.0 / 3.0, 1.0 / 3.0, 1.0 / 3.0)
  {
    var v1 := vi1.globalVertex;
    var v2 := vi2.globalVertex;
    var v3 := vi3.globalVertex;
    if triangleType == 0 then
      var t := CenterParameterType0(n, vi1.height, vi2.height - vi1.height);
      AlongMedianFromApex(v1, v2, v3, t);
      Along(v1, Midpoint(v2, v3), t)
    else if triangleType == 1 then
      var t := CenterParameterType1(n, vi1.height, vi3.height - vi1.height);
      AlongMedianFromThirdApex(v1, v2, v3, t);
      Along(v3, Midpoint(v1, v2), t)
    else
      CentroidIsBarycentric(v1, v2, v3);
      Centroid(v1, v2, v3)
  }

  /**
   * GetTriangleCenter with the type-1 parameter measured from the base
   * midpoint, as the formula is derived, instead of from the apex.
   */
  function GetTriangleCenter(n: Numerics, vi1: VertexInfo, vi2: VertexInfo, vi3: VertexInfo, triangleType: int): (r: Vec3)
    ensures var t := CenterParameterType1(n, vi1.height, vi3.height - vi1.height);
      triangleType == 1 ==> r == Barycentric(vi1.globalVertex, vi2.globalVertex, vi3.globalVertex, (1.0 - t) / 2.0, (1.0 - t) / 2.0, t)
    ensures triangleType != 1 ==> r == GetTriangleCenterAsWritten(n, vi1, vi2, vi3, triangleType)
  {
    var v1 := vi1.globalVertex;
    var v2 := vi2.globalVertex;
    var v3 := vi3.globalVertex;
    if triangleType == 1 then
      var t := CenterParameterType1(n, vi1.height, vi3.height - vi1.height);
      AlongMedianFromBase(v1, v2, v3, t);
      Along(Midpoint(v1, v2), v3, t)
    else
      GetTriangleCenterAsWritten(n, vi1, vi2, vi3, triangleType)
  }

  /**
   * The heights the centre formula reads of a submerged piece of the given
   * type: the level vertex at or below the water and the apex further down.
   * The other vertex of the level pair may differ from the first by the
   * cutting tolerance.
   */
  predicate SubmergedShape(vi1: VertexInfo, vi2: VertexInfo, vi3: VertexInfo, triangleType: int) {
    if triangleType == 0 then
      vi1.height <= 0.0 && vi2.height <= vi1.height && vi2.height < 0.0
    else if triangleType == 1 then
      vi1.height <= 0.0 && vi3.height <= vi1.height && vi3.height < 0.0
    else
      true
  }

  /** A quotient by a negative denominator between two bounds, from the numerator's bounds. */
  lemma QuotientBetween(num: real, den: real, lo: real, hi: real)
    requires den < 0.0 && hi * den <= num <= lo * den
    ensures lo <= num / den <= hi
  {
    var q := num / den;
    assert q * den == num;
    if q < lo {
      ProductPositive(lo - q, -den, num - lo * den);
    }
    if q > hi {
      ProductPositive(q - hi, -den, hi * den - num);
    }
  }

  /** For a submerged piece the parameters lie in [2/3, 3/4] and [1/3, 1/2]. */
  lemma {:induction false} CenterParameterBounds(n: Numerics, z0: real, h: real)
    requires DivideLaws(n) && z0 <= 0.0 && h <= 0.0 && (z0 != 0.0 || h != 0.0)
    ensures 2.0 / 3.0 <= CenterParameterType0(n, z0, h) <= 3.0 / 4.0
    ensures 1.0 / 3.0 <= CenterParameterType1(n, z0, h) <= 1.0 / 2.0
  {
    QuotientBetween(4.0 * z0 + 3.0 * h, 6.0 * z0 + 4.0 * h, 2.0 / 3.0, 3.0 / 4.0);
    QuotientBetween(2.0 * z0 + h, 6.0 * z0 + 2.0 * h, 1.0 / 3.0, 1.0 / 2.0);
  }

  /** The type-0 parameter is the centre of pressure measured from the apex. */
  lemma {:induction false} Type0IsPressureCentre(n: Numerics, z0: real, h: real)
    requires DivideLaws(n) && z0 <= 0.0 && h <= 0.0 && (z0 != 0.0 || h != 0.0)
    ensures CenterParameterType0(n, z0, h) == PressureCentreFromApex(-z0, -h)
  {
    var den := -z0 / 2.0 - h / 3.0;
    var r := (-z0 / 3.0 - h / 4.0) / den;
    assert r * den == -z0 / 3.0 - h / 4.0;
    assert r * (6.0 * z0 + 4.0 * h) == -12.0 * (r * den);
    QuotientIs(4.0 * z0 + 3.0 * h, 6.0 * z0 + 4.0 * h, r);
  }

  /**
   * The type-1 parameter is the centre of pressure measured from the base
   * midpoint: one minus the fraction from the apex, whose depth is z0 + h.
   */
  lemma {:induction false} Type1IsPressureCentreFromBase(n: Numerics, z0: real, h: real)
    requires DivideLaws(n) && z0 <= 0.0 && h <= 0.0 && (z0 != 0.0 || h != 0.0)
    ensures CenterParameterType1(n, z0, h) == 1.0 - PressureCentreFromApex(-(z0 + h), h)
  {
    var den := -(z0 + h) / 2.0 + h / 3.0;
    var r := (-(z0 + h) / 3.0 + h / 4.0) / den;
    assert r * den == -(z0 + h) / 3.0 + h / 4.0;
    assert (1.0 - r) * (6.0 * z0 + 2.0 * h) == 6.0 * z0 + 2.0 * h + 12.0 * (r * den);
    QuotientIs(2.0 * z0 + h, 6.0 * z0 + 2.0 * h, 1.0 - r);
  }

  lemma ScalarAlongMedian(a: real, b: real, c: real, t: real)
    ensures a + ((b + c) / 2.0 - a) * t == (1.0 - t) * a + (t / 2.0) * b + (t / 2.0) * c
    ensures (a + b) / 2.0 + (c - (a + b) / 2.0) * t == ((1.0 - t) / 2.0) * a + ((1.0 - t) / 2.0) * b + t * c
  {
  }

  lemma AlongMedianFromApex(a: Vec3, b: Vec3, c: Vec3, t: real)
    ensures Along(a, Midpoint(b, c), t) == Barycentric(a, b, c, 1.0 - t, t / 2.0, t / 2.0)
  {
    ScalarAlongMedian(a.x, b.x, c.x, t);
    ScalarAlongMedian(a.y, b.y, c.y, t);
    ScalarAlongMedian(a.z, b.z, c.z, t);
    assert Along(a, Midpoint(b, c), t) == Vec3(a.x + ((b.x + c.x) / 2.0 - a.x) * t,
      a.y + ((b.y + c.y) / 2.0 - a.y) * t, a.z + ((b.z + c.z) / 2.0 - a.z) * t);
  }

  lemma AlongMedianFromBase(a: Vec3, b: Vec3, c: Vec3, t: real)
    ensures Along(Midpoint(a, b), c, t) == Barycentric(a, b, c, (1.0 - t) / 2.0, (1.0 - t) / 2.0, t)
  {
    ScalarAlongMedian(a.x, b.x, c.x, t);
    ScalarAlongMedian(a.y, b.y, c.y, t);
    ScalarAlongMedian(a.z, b.z, c.z, t);
    assert Along(Midpoint(a, b), c, t) == Vec3((a.x + b.x) / 2.0 + (c.x - (a.x + b.x) / 2.0) * t,
      (a.y + b.y) / 2.0 + (c.y - (a.y + b.y) / 2.0) * t, (a.z + b.z) / 2.0 + (c.z - (a.z + b.z) / 2.0) * t);
  }

  lemma AlongMedianFromThirdApex(a: Vec3, b: Vec3, c: Vec3, t: real)
    ensures Along(c, Midpoint(a, b), t) == Barycentric(a, b, c, t / 2.0, t / 2.0, 1.0 - t)
  {
    ScalarAlongMedian(c.x, a.x, b.x, t);
    ScalarAlongMedian(c.y, a.y, b.y, t);
    ScalarAlongMedian(c.z, a.z, b.z, t);
    assert Along(c, Midpoint(a, b), t) == Vec3(c.x + ((a.x + b.x) / 2.0 - c.x) * t,
      c.y + ((a.y + b.y) / 2.0 - c.y) * t, c.z + ((a.z + b.z) / 2.0 - c.z) * t);
  }

  lemma CentroidIsBarycentric(a: Vec3, b: Vec3, c: Vec3)
    ensures Centroid(a, b, c) == Barycentric(a, b, c, 1.0 / 3.0, 1.0 / 3.0, 1.0 / 3.0)
  {
  }

  /** Under uniform pressure (a level piece) both types give the centroid in the corrected centre. */
  lemma {:induction false} LevelPieceCentreIsCentroid(n: Numerics, vi1: VertexInfo, vi2: VertexInfo, vi3: VertexInfo, triangleType: int)
    requires DivideLaws(n) && (triangleType == 0 || triangleType == 1)
    requires vi1.height == vi2.height == vi3.height < 0.0
    ensures GetTriangleCenter(n, vi1, vi2, vi3, triangleType) == Centroid(vi1.globalVertex, vi2.globalVertex, vi3.globalVertex)
  {
    var z0 := vi1.height;
    var v1, v2, v3 := vi1.globalVertex, vi2.globalVertex, vi3.globalVertex;
    CentroidIsBarycentric(v1, v2, v3);
    if triangleType == 0 {
      QuotientIs(4.0 * z0 + 3.0 * 0.0, 6.0 * z0 + 4.0 * 0.0, 2.0 / 3.0);
      AlongMedianFromApex(v1, v2, v3, 2.0 / 3.0);
    } else {
      QuotientIs(2.0 * z0 + 0.0, 6.0 * z0 + 2.0 * 0.0, 1.0 / 3.0);
      AlongMedianFromBase(v1, v2, v3, 1.0 / 3.0);
    }
  }

  /**
   * The centre as written puts a level type-1 piece's pressure a third of
   * the way from the apex to the base midpoint, where the centroid lies two
   * thirds of the way: the two differ for every non-degenerate piece.
   */
  lemma {:induction false} LevelType1CentreAsWritten(n: Numerics, vi1: VertexInfo, vi2: VertexInfo, vi3: VertexInfo)
    requires DivideLaws(n) && vi1.height == vi2.height == vi3.height < 0.0
    ensures GetTriangleCenterAsWritten(n, vi1, vi2, vi3, 1)
      == Along(vi3.globalVertex, Midpoint(vi1.globalVertex, vi2.globalVertex), 1.0 / 3.0)
    ensures vi3.globalVertex != Midpoint(vi1.globalVertex, vi2.globalVertex) ==>
      GetTriangleCenterAsWritten(n, vi1, vi2, vi3, 1) != Centroid(vi1.globalVertex, vi2.globalVertex, vi3.globalVertex)
  {
    var z0 := vi1.height;
    QuotientIs(2.0 * z0 + 0.0, 6.0 * z0 + 2.0 * 0.0, 1.0 / 3.0);
    var c := GetTriangleCenterAsWritten(n, vi1, vi2, vi3, 1);
    var g := Centroid(vi1.globalVertex, vi2.globalVertex, vi3.globalVertex);
    var m := Midpoint(vi1.globalVertex, vi2.globalVertex);
    var v3 := vi3.globalVertex;
    assert c == Vec3(v3.x + (m.x - v3.x) / 3.0, v3.y + (m.y - v3.y) / 3.0, v3.z + (m.z - v3.z) / 3.0);
    assert g == Vec3(v3.x + 2.0 * (m.x - v3.x) / 3.0, v3.y + 2.0 * (m.y - v3.y) / 3.0, v3.z + 2.0 * (m.z - v3.z) / 3.0);
    assert c == g ==> v3 == m by {
      if c == g {
        assert v3.x == m.x && v3.y == m.y && v3.z == m.z;
      }
    }
  }

  /**
   * A concrete horizontal type-1 piece one unit under flat water (each
   * height is the vertex's y): its centre as written is (3, -1, 2), its
   * centroid (3, -1, 1).
   */
  lemma CenterAsWrittenCounterexample(n: Numerics)
    requires DivideLaws(n)
    ensures GetTriangleCenterAsWritten(n, VertexInfo(-1.0, 0, Vec3(0.0, -1.0, 0.0)), VertexInfo(-1.0, 1, Vec3(6.0, -1.0, 0.0)),
              VertexInfo(-1.0, 2, Vec3(3.0, -1.0, 3.0)), 1) == Vec3(3.0, -1.0, 2.0)
    ensures Centroid(Vec3(0.0, -1.0, 0.0), Vec3(6.0, -1.0, 0.0), Vec3(3.0, -1.0, 3.0)) == Vec3(3.0, -1.0, 1.0)
  {
    DivideExact(n, 2.0 * -1.0 + 0.0, 6.0 * -1.0 + 2.0 * 0.0);
    ExampleCentre(n);
  }

  /** The example's centre once its type-1 parameter is known to be 1/3: weights 1/6, 1/6 and 2/3. */
  lemma ExampleCentre(n: Numerics)
    requires CenterParameterType1(n, -1.0, 0.0) == 1.0 / 3.0
    ensures GetTriangleCenterAsWritten(n, VertexInfo(-1.0, 0, Vec3(0.0, -1.0, 0.0)), VertexInfo(-1.0, 1, Vec3(6.0, -1.0, 0.0)),
              VertexInfo(-1.0, 2, Vec3(3.0, -1.0, 3.0)), 1) == Vec3(3.0, -1.0, 2.0)
  {
    var k := 1.0 / 3.0;
    assert Barycentric(Vec3(0.0, -1.0, 0.0), Vec3(6.0, -1.0, 0.0), Vec3(3.0, -1.0, 3.0), k / 2.0, k / 2.0, 1.0 - k)
      == Vec3(3.0, -1.0, 2.0);
  }

  /**
   * The centre as written of a submerged piece lies inside the piece: the
   * type-1 parameter, in [1/3, 1/2], is measured from the apex vi3, so the
   * centre has the weights t/2, t/2, 1 - t.
   */
  lemma {:induction false} CenterInsidePiece(n: Numerics, vi1: VertexInfo, vi2: VertexInfo, vi3: VertexInfo, triangleType: int)
    requires DivideLaws(n) && SubmergedShape(vi1, vi2, vi3, triangleType)
    ensures InTriangle(GetTriangleCenterAsWritten(n, vi1, vi2, vi3, triangleType), vi1.globalVertex, vi2.globalVertex, vi3.globalVertex)
  {
    var v1, v2, v3 := vi1.globalVertex, vi2.globalVertex, vi3.globalVertex;
    if triangleType == 0 {
      var t := CenterParameterType0(n, vi1.height, vi2.height - vi1.height);
      CenterParameterBounds(n, vi1.height, vi2.height - vi1.height);
      assert InTriangle(Barycentric(v1, v2, v3, 1.0 - t, t / 2.0, t / 2.0), v1, v2, v3);
    } else if triangleType == 1 {
      var t := CenterParameterType1(n, vi1.height, vi3.height - vi1.height);
      CenterParameterBounds(n, vi1.height, vi3.height - vi1.height);
      assert InTriangle(Barycentric(v1, v2, v3, t / 2.0, t / 2.0, 1.0 - t), v1, v2, v3);
    } else {
      assert InTriangle(Barycentric(v1, v2, v3, 1.0 / 3.0, 1.0 / 3.0, 1.0 / 3.0), v1, v2, v3);
    }
  }

  /** The corrected centre of a submerged piece lies inside the piece too. */
  lemma {:induction false} CorrectedCenterInsidePiece(n: Numerics, vi1: VertexInfo, vi2: VertexInfo, vi3: VertexInfo, triangleType: int)
    requires DivideLaws(n) && SubmergedShape(vi1, vi2, vi3, triangleType)
    ensures InTriangle(GetTriangleCenter(n, vi1, vi2, vi3, triangleType), vi1.globalVertex, vi2.globalVertex, vi3.globalVertex)
  {
    var v1, v2, v3 := vi1.globalVertex, vi2.globalVertex, vi3.globalVertex;
    if triangleType == 1 {
      var t := CenterParameterType1(n, vi1.height, vi3.height - vi1.height);
      CenterParameterBounds(n, vi1.height, vi3.height - vi1.height);
      assert InTriangle(Barycentric(v1, v2, v3, (1.0 - t) / 2.0, (1.0 - t) / 2.0, t), v1, v2, v3);
    } else {
      CenterInsidePiece(n, vi1, vi2, vi3, triangleType);
    }
  }

  // ---------------------------------------------------------------------
  // Velocity and area.

  /** V = V_G + omega x (C - G): the velocity of the hull point `center`. */
  function GetTriangleVelocity(center: Vec3, body: RigidbodyState): (r: Vec3)
    ensures Dot(Sub(r, body.velocity), body.angularVelocity) == 0.0
    ensures Dot(Sub(r, body.velocity), Sub(center, body.worldCenterOfMass)) == 0.0
  {
    var arm := Sub(center, body.worldCenterOfMass);
    CrossOrthogonal(body.angularVelocity, arm);
    assert Sub(Add(body.velocity, Cross(body.angularVelocity, arm)), body.velocity) == Cross(body.angularVelocity, arm);
    Add(body.velocity, Cross(body.angularVelocity, arm))
  }

  lemma CrossOrthogonal(a: Vec3, b: Vec3)
    ensures Dot(Cross(a, b), a) == 0.0 && Dot(Cross(a, b), b) == 0.0
  {
  }

  /** Without rotation every point moves with the body. */
  lemma VelocityWithoutRotation(center: Vec3, body: RigidbodyState)
    requires body.angularVelocity == Zero
    ensures GetTriangleVelocity(center, body) == body.velocity
  {
  }

  /** The velocity field is rigid: two points never move towards or apart from each other. */
  lemma {:induction false} VelocityFieldIsRigid(p: Vec3, q: Vec3, body: RigidbodyState)
    ensures Dot(Sub(GetTriangleVelocity(p, body), GetTriangleVelocity(q, body)), Sub(p, q)) == 0.0
  {
    var w := body.angularVelocity;
    var g := body.worldCenterOfMass;
    var d := Sub(p, q);
    assert Sub(GetTriangleVelocity(p, body), GetTriangleVelocity(q, body)) == Cross(w, d);
  }

  /** |v1 v2| |v3 v1| sin(angle at v1) / 2. */
  function GetTriangleArea(n: Numerics, v1: Vec3, v2: Vec3, v3: Vec3): (r: real)
    ensures SqrtLaws(n) && TrigLaws(n) ==> r <= Distance(n, v1, v2) * Distance(n, v3, v1) / 2.0
  {
    var a := Distance(n, v1, v2);
    var c := Distance(n, v3, v1);
    var s := n.sin(n.angle(Sub(v2, v1), Sub(v3, v1)) * Deg2Rad(n));
    SineScaledBySides(n, v1, v2, v3, s);
    a * c * s / 2.0
  }

  lemma SineScaledBySides(n: Numerics, v1: Vec3, v2: Vec3, v3: Vec3, s: real)
    requires s == n.sin(n.angle(Sub(v2, v1), Sub(v3, v1)) * Deg2Rad(n))
    ensures SqrtLaws(n) && TrigLaws(n) ==> Distance(n, v1, v2) * Distance(n, v3, v1) * s <= Distance(n, v1, v2) * Distance(n, v3, v1)
  {
    if SqrtLaws(n) && TrigLaws(n) {
      var a := Distance(n, v1, v2);
      var c := Distance(n, v3, v1);
      DistanceNonNegative(n, v1, v2);
      DistanceNonNegative(n, v3, v1);
      ProductNonNegative(a, c, a * c);
      ProductNonNegative(a * c, 1.0 - s, a * c * (1.0 - s));
    }
  }

  /** The area is never negative, and a piece with two coinciding corners has none. */
  lemma {:induction false} AreaNonNegative(n: Numerics, v1: Vec3, v2: Vec3, v3: Vec3)
    requires SqrtLaws(n) && TrigLaws(n)
    ensures GetTriangleArea(n, v1, v2, v3) >= 0.0
    ensures v1 == v2 || v3 == v1 ==> GetTriangleArea(n, v1, v2, v3) == 0.0
  {
    DistanceNonNegative(n, v1, v2);
    DistanceNonNegative(n, v3, v1);
    var deg := n.angle(Sub(v2, v1), Sub(v3, v1));
    assert 0.0 <= deg <= 180.0;
    assert 0.0 <= deg * Deg2Rad(n) <= n.pi by {
      assert 180.0 * Deg2Rad(n) == n.pi;
    }
    var s := n.sin(deg * Deg2Rad(n));
    assert s >= 0.0;
    var a := Distance(n, v1, v2);
    var c := Distance(n, v3, v1);
    assert a * c >= 0.0;
    assert a * c * s >= 0.0;
  }

  // ---------------------------------------------------------------------
  // Forces.

  /** rho g (-1) h A n with the horizontal components dropped. */
  function BuoyancyForce(densityOfWater: real, gravityY: real, triangle: TriangleInfo): (r: Vec3)
    ensures r.x == 0.0 && r.z == 0.0
    ensures triangle.height == 0.0 || triangle.area == 0.0 || triangle.normal.y == 0.0 ==> r == Zero
  {
    Vec3(0.0, densityOfWater * gravityY * -1.0 * triangle.height * triangle.area * triangle.normal.y, 0.0)
  }

  /**
   * Buoyancy is vertical, and under downward gravity it pushes a submerged
   * downward-facing piece up, and pulls a piece whose centre is above the
   * water (height > 0) down.
   */
  lemma {:induction false} BuoyancyDirection(densityOfWater: real, gravityY: real, triangle: TriangleInfo)
    requires densityOfWater > 0.0 && gravityY < 0.0 && triangle.area > 0.0 && triangle.normal.y < 0.0
    ensures BuoyancyForce(densityOfWater, gravityY, triangle).x == 0.0
    ensures BuoyancyForce(densityOfWater, gravityY, triangle).z == 0.0
    ensures triangle.height < 0.0 ==> BuoyancyForce(densityOfWater, gravityY, triangle).y > 0.0
    ensures triangle.height > 0.0 ==> BuoyancyForce(densityOfWater, gravityY, triangle).y < 0.0
  {
    var k := densityOfWater * -gravityY;
    ProductPositive(densityOfWater, -gravityY, k);
    var m := triangle.area * -triangle.normal.y;
    ProductPositive(triangle.area, -triangle.normal.y, m);
    var y := BuoyancyForce(densityOfWater, gravityY, triangle).y;
    assert y == -(k * m) * triangle.height;
    ProductPositive(k, m, k * m);
    if triangle.height < 0.0 {
      ProductPositive(k * m, -triangle.height, y);
    }
    if triangle.height > 0.0 {
      ProductPositive(k * m, triangle.height, -y);
    }
  }

  /** The ITTC 1957 friction line 0.075 / (log10 Rn - 2)^2, from the three logarithms. */
  function CalculateViscosityCoefficient(n: Numerics, logRigidbodyVelocity: real, logFluidTravelLength: real, logViscosity: real): (r: real)
    ensures var d := logRigidbodyVelocity + logFluidTravelLength - logViscosity - 2.0;
      PowLaws(n) && DivideLaws(n) && d != 0.0 ==> r * (d * d) == 0.075
  {
    var reynoldsNumber := logRigidbodyVelocity + logFluidTravelLength - logViscosity;
    FrictionLine(n, reynoldsNumber - 2.0);
    n.divide(0.075, n.pow(reynoldsNumber - 2.0, 2.0))
  }

  lemma FrictionLine(n: Numerics, d: real)
    ensures PowLaws(n) && DivideLaws(n) && d != 0.0 ==> n.divide(0.075, n.pow(d, 2.0)) * (d * d) == 0.075
  {
    if PowLaws(n) && DivideLaws(n) && d != 0.0 {
      assert n.pow(d, 2.0) == d * d;
      if d > 0.0 { ProductPositive(d, d, d * d); } else { ProductPositive(-d, -d, d * d); }
    }
  }

  /** Away from log10 Rn = 2 the coefficient is positive. */
  lemma {:induction false} ViscosityCoefficientPositive(n: Numerics, logV: real, logL: real, logNu: real)
    requires PowLaws(n) && DivideLaws(n) && logV + logL - logNu != 2.0
    ensures CalculateViscosityCoefficient(n, logV, logL, logNu) > 0.0
  {
    var d := logV + logL - logNu - 2.0;
    var p := n.pow(d, 2.0);
    assert p == d * d;
    if d > 0.0 { ProductPositive(d, d, p); } else { ProductPositive(-d, -d, p); }
    DivideExact(n, 0.075, p);
  }

  /** The velocity with its normal component removed, reversed and normalised. */
  function TangentialDirection(n: Numerics, velocity: Vec3, normal: Vec3): Vec3 {
    Normalized(n, Neg(Sub(velocity, Scale(normal, Dot(velocity, normal)))))
  }

  /** 1/2 rho Cf A |v|^2 along the reversed tangential velocity. */
  function ViscousWaterResistance(n: Numerics, densityOfWater: real, viscosityCoefficient: real, triangle: TriangleInfo): (r: Vec3)
    ensures densityOfWater == 0.0 || viscosityCoefficient == 0.0 || triangle.area == 0.0 ==> r == Zero
    ensures SqrtLaws(n) && triangle.velocity == Zero ==> r == Zero
  {
    var velocity := triangle.velocity;
    var speed := Magnitude(n, velocity);
    var k := 0.5 * densityOfWater * viscosityCoefficient * triangle.area * speed * speed;
    StillSpeed(n, velocity);
    ViscousFactorVanishes(densityOfWater, viscosityCoefficient, triangle.area, speed, k);
    Scale(TangentialDirection(n, velocity, triangle.normal), k)
  }

  /** The viscous magnitude is zero when one of its factors is. */
  lemma ViscousFactorVanishes(rho: real, cf: real, area: real, m: real, k: real)
    requires k == 0.5 * rho * cf * area * m * m
    ensures rho == 0.0 || cf == 0.0 || area == 0.0 || m == 0.0 ==> k == 0.0
  {
    var k3 := 0.5 * rho * cf * area;
    assert k == k3 * m * m;
    if rho == 0.0 || cf == 0.0 || area == 0.0 {
      assert k3 == 0.0;
    }
  }

  /** A still piece has speed zero. */
  lemma StillSpeed(n: Numerics, velocity: Vec3)
    ensures SqrtLaws(n) && velocity == Zero ==> Magnitude(n, velocity) == 0.0
  {
    if SqrtLaws(n) && velocity == Zero {
      SqrtZero(n);
    }
  }

  /** Scaling by a non-negative factor keeps a dot product zero or non-positive. */
  lemma ScaledDotSign(d: Vec3, k: real, a: Vec3)
    requires k >= 0.0
    ensures Dot(d, a) == 0.0 ==> Dot(Scale(d, k), a) == 0.0
    ensures Dot(d, a) <= 0.0 ==> Dot(Scale(d, k), a) <= 0.0
  {
    DotLinear(d, d, a, k);
    if Dot(d, a) <= 0.0 {
      ProductNonNegative(k, -Dot(d, a), -(k * Dot(d, a)));
    }
  }

  lemma {:induction false} TangentialOrthogonal(n: Numerics, velocity: Vec3, normal: Vec3)
    requires Dot(normal, normal) == 1.0
    ensures Dot(TangentialDirection(n, velocity, normal), normal) == 0.0
    ensures Dot(TangentialDirection(n, velocity, normal), velocity) <= 0.0
  {
    var vn := Dot(velocity, normal);
    var along := Scale(normal, vn);
    var raw := Neg(Sub(velocity, along));
    DotLinear(normal, normal, normal, vn);
    DotLinear(velocity, along, normal, vn);
    DotLinear(Sub(velocity, along), along, normal, vn);
    assert Dot(raw, normal) == 0.0;
    DotLinear(normal, normal, velocity, vn);
    DotLinear(velocity, along, velocity, vn);
    DotLinear(Sub(velocity, along), along, velocity, vn);
    DotLinear(normal, velocity, velocity, vn);
    assert Dot(raw, velocity) == vn * vn - Dot(velocity, velocity);
    CauchySchwarz(velocity, normal);
    NormalizedDotSign(n, raw, normal);
    NormalizedDotSign(n, raw, velocity);
  }

  /**
   * On a piece with a unit normal the viscous force is tangential, and with
   * non-negative density, coefficient and area it never pushes along the
   * velocity.
   */
  lemma {:induction false} ViscousForceTangentialAndResisting(n: Numerics, densityOfWater: real, viscosityCoefficient: real, triangle: TriangleInfo)
    requires SqrtLaws(n) && Dot(triangle.normal, triangle.normal) == 1.0
    requires densityOfWater >= 0.0 && viscosityCoefficient >= 0.0 && triangle.area >= 0.0
    ensures Dot(ViscousWaterResistance(n, densityOfWater, viscosityCoefficient, triangle), triangle.normal) == 0.0
    ensures Dot(ViscousWaterResistance(n, densityOfWater, viscosityCoefficient, triangle), triangle.velocity) <= 0.0
  {
    TangentialOrthogonal(n, triangle.velocity, triangle.normal);
    var speed := Magnitude(n, triangle.velocity);
    MagnitudeSquared(n, triangle.velocity);
    var k1 := 0.5 * densityOfWater;
    var k2 := k1 * viscosityCoefficient;
    ProductNonNegative(k1, viscosityCoefficient, k2);
    var k3 := k2 * triangle.area;
    ProductNonNegative(k2, triangle.area, k3);
    var k4 := k3 * speed;
    ProductNonNegative(k3, speed, k4);
    var k := k4 * speed;
    ProductNonNegative(k4, speed, k);
    ScaledDotSign(TangentialDirection(n, triangle.velocity, triangle.normal), k, triangle.normal);
    ScaledDotSign(TangentialDirection(n, triangle.velocity, triangle.normal), k, triangle.velocity);
  }

  /** The scalar the pressure-drag force multiplies the normal by. */
  function PressureDragScalar(cosine: real, speed: real, area: real, n: Numerics,
    pdCoefficient1: real, pdCoefficient2: real, pdFallOffPower: real,
    sdCoefficient1: real, sdCoefficient2: real, sdFallOffPower: real): real
  {
    if cosine > 0.0 then
      -1.0 * (pdCoefficient1 * speed + pdCoefficient2 * speed * speed) * area * n.pow(cosine, pdFallOffPower)
    else
      (sdCoefficient1 * speed + sdCoefficient2 * speed * speed) * area * n.pow(-cosine, sdFallOffPower)
  }

  /** Pressure drag (cosine > 0) or suction (otherwise) along the normal; speed relative to referenceVelocity. */
  function PressureDragForce(n: Numerics, triangle: TriangleInfo, referenceVelocity: real,
    pdCoefficient1: real, pdCoefficient2: real, pdFallOffPower: real,
    sdCoefficient1: real, sdCoefficient2: real, sdFallOffPower: real): (r: Vec3)
    ensures Cross(r, triangle.normal) == Zero
    ensures SqrtLaws(n) && DivideLaws(n) && referenceVelocity != 0.0 && triangle.velocity == Zero ==> r == Zero
  {
    var speed := n.divide(Magnitude(n, triangle.velocity), referenceVelocity);
    var k := PressureDragScalar(triangle.cosine, speed, triangle.area, n,
      pdCoefficient1, pdCoefficient2, pdFallOffPower, sdCoefficient1, sdCoefficient2, sdFallOffPower);
    CrossScaledSelf(triangle.normal, k);
    StillSpeed(n, triangle.velocity);
    StillPieceNoDrag(n, triangle, referenceVelocity, speed,
      pdCoefficient1, pdCoefficient2, pdFallOffPower, sdCoefficient1, sdCoefficient2, sdFallOffPower);
    Scale(triangle.normal, k)
  }

  /** A multiple of a vector is parallel to it. */
  lemma ScaleTwice(a: Vec3, j: real, k: real)
    ensures Scale(Scale(a, j), k) == Scale(a, j * k)
  {
    assert (a.x * j) * k == a.x * (j * k);
    assert (a.y * j) * k == a.y * (j * k);
    assert (a.z * j) * k == a.z * (j * k);
  }

  lemma CrossScaledSelf(a: Vec3, k: real)
    ensures Cross(Scale(a, k), a) == Zero
  {
    assert (a.y * k) * a.z - (a.z * k) * a.y == 0.0;
    assert (a.z * k) * a.x - (a.x * k) * a.z == 0.0;
    assert (a.x * k) * a.y - (a.y * k) * a.x == 0.0;
  }

  /** At zero speed neither pressure drag nor suction acts. */
  lemma StillPieceNoDrag(n: Numerics, triangle: TriangleInfo, referenceVelocity: real, speed: real,
    pd1: real, pd2: real, fP: real, sd1: real, sd2: real, fS: real)
    requires speed == n.divide(Magnitude(n, triangle.velocity), referenceVelocity)
    requires SqrtLaws(n) && triangle.velocity == Zero ==> Magnitude(n, triangle.velocity) == 0.0
    ensures SqrtLaws(n) && DivideLaws(n) && referenceVelocity != 0.0 && triangle.velocity == Zero ==>
      PressureDragScalar(triangle.cosine, speed, triangle.area, n, pd1, pd2, fP, sd1, sd2, fS) == 0.0
  {
    if SqrtLaws(n) && DivideLaws(n) && referenceVelocity != 0.0 && triangle.velocity == Zero {
      assert speed == 0.0 / referenceVelocity == 0.0;
    }
  }

  /**
   * With non-negative coefficients and area and positive fall-off powers the
   * scalar is never positive on a piece facing its motion (pressure pushes
   * back along the normal) and never negative on one facing away (suction).
   */
  lemma {:induction false} PressureDragScalarSign(cosine: real, speed: real, area: real, n: Numerics,
    pd1: real, pd2: real, fP: real, sd1: real, sd2: real, fS: real)
    requires PowLaws(n) && -1.0 <= cosine <= 1.0 && speed >= 0.0 && area >= 0.0
    requires pd1 >= 0.0 && pd2 >= 0.0 && sd1 >= 0.0 && sd2 >= 0.0 && fP > 0.0 && fS > 0.0
    ensures cosine > 0.0 ==> PressureDragScalar(cosine, speed, area, n, pd1, pd2, fP, sd1, sd2, fS) <= 0.0
    ensures cosine <= 0.0 ==> PressureDragScalar(cosine, speed, area, n, pd1, pd2, fP, sd1, sd2, fS) >= 0.0
  {
    assert speed * speed >= 0.0;
    if cosine > 0.0 {
      var k := (pd1 * speed + pd2 * speed * speed) * area;
      assert k >= 0.0;
      assert n.pow(cosine, fP) >= 0.0;
      assert k * n.pow(cosine, fP) >= 0.0;
    } else {
      var k := (sd1 * speed + sd2 * speed * speed) * area;
      assert k >= 0.0;
      assert n.pow(-cosine, fS) >= 0.0;
      assert k * n.pow(-cosine, fS) >= 0.0;
    }
  }

  /** The drag acts along the normal, against it when facing the motion and with it otherwise. */
  lemma {:induction false} PressureDragAlongNormal(n: Numerics, triangle: TriangleInfo, referenceVelocity: real,
    pd1: real, pd2: real, fP: real, sd1: real, sd2: real, fS: real)
    requires SqrtLaws(n) && DivideLaws(n) && PowLaws(n) && -1.0 <= triangle.cosine <= 1.0 && triangle.area >= 0.0 && referenceVelocity > 0.0
    requires pd1 >= 0.0 && pd2 >= 0.0 && sd1 >= 0.0 && sd2 >= 0.0 && fP > 0.0 && fS > 0.0
    ensures Cross(PressureDragForce(n, triangle, referenceVelocity, pd1, pd2, fP, sd1, sd2, fS), triangle.normal) == Zero
    ensures triangle.cosine > 0.0 ==>
      Dot(PressureDragForce(n, triangle, referenceVelocity, pd1, pd2, fP, sd1, sd2, fS), triangle.normal) <= 0.0
    ensures triangle.cosine <= 0.0 ==>
      Dot(PressureDragForce(n, triangle, referenceVelocity, pd1, pd2, fP, sd1, sd2, fS), triangle.normal) >= 0.0
  {
    var m := Magnitude(n, triangle.velocity);
    MagnitudeSquared(n, triangle.velocity);
    DivideExact(n, m, referenceVelocity);
    var speed := m / referenceVelocity;
    assert speed >= 0.0;
    PressureDragScalarSign(triangle.cosine, speed, triangle.area, n, pd1, pd2, fP, sd1, sd2, fS);
    var k := PressureDragScalar(triangle.cosine, speed, triangle.area, n, pd1, pd2, fP, sd1, sd2, fS);
    DotSelfNonNegative(triangle.normal);
    assert Dot(Scale(triangle.normal, k), triangle.normal) == k * Dot(triangle.normal, triangle.normal);
  }

  /** The rate of change of swept volume per unit original area: (A V - A' V') / (A0 dt). */
  function SlammingAcceleration(n: Numerics, previousBuffer: TriangleBuffer, currentBuffer: TriangleBuffer, fixedDeltaTime: real): Vec3 {
    var currentDeltaVolume := Scale(currentBuffer.velocity, currentBuffer.submergedArea);
    var previousDeltaVolume := Scale(previousBuffer.velocity, previousBuffer.submergedArea);
    DivideVec(n, Sub(currentDeltaVolume, previousDeltaVolume), currentBuffer.originalArea * fixedDeltaTime)
  }

  /** clamp01(|a| / aMax): how far the acceleration is towards its maximum. */
  function SlammingRatio(n: Numerics, acceleration: Vec3, maxAcceleration: real): real {
    Clamp01(n.divide(Magnitude(n, acceleration), maxAcceleration))
  }

  /** F_stop = m v (2A / S): the force that would stop the piece's share of the hull. */
  function StoppingForce(n: Numerics, triangle: TriangleInfo, totalMass: real, totalArea: real): Vec3 {
    Scale(triangle.velocity, totalMass * n.divide(2.0 * triangle.area, totalArea))
  }

  /** -ratio^p cos F_stop with F_stop = m v (2A / S); zero on pieces receding from the water (cosine < 0). */
  function SlammingForce(n: Numerics, previousBuffer: TriangleBuffer, currentBuffer: TriangleBuffer, triangle: TriangleInfo,
    maxAcceleration: real, rampUpPower: real, totalMass: real, totalArea: real, fixedDeltaTime: real): (r: Vec3)
    ensures Cross(r, triangle.velocity) == Zero
  {
    if triangle.cosine < 0.0 then Zero
    else
      var share := totalMass * n.divide(2.0 * triangle.area, totalArea);
      var k := -1.0 * n.pow(SlammingRatio(n, SlammingAcceleration(n, previousBuffer, currentBuffer, fixedDeltaTime), maxAcceleration), rampUpPower)
        * triangle.cosine;
      ScaleTwice(triangle.velocity, share, k);
      CrossScaledSelf(triangle.velocity, share * k);
      Scale(StoppingForce(n, triangle, totalMass, totalArea), k)
  }

  /**
   * Slamming is zero on receding pieces; otherwise, with non-negative mass and
   * area, a positive total area and ramp-up power, it opposes the piece's
   * velocity with at most the full stopping force.
   */
  lemma {:induction false} SlammingOpposesMotion(n: Numerics, previousBuffer: TriangleBuffer, currentBuffer: TriangleBuffer, triangle: TriangleInfo,
    maxAcceleration: real, rampUpPower: real, totalMass: real, totalArea: real, fixedDeltaTime: real)
    requires DivideLaws(n) && PowLaws(n) && totalMass >= 0.0 && triangle.area >= 0.0 && totalArea > 0.0 && rampUpPower > 0.0
    ensures triangle.cosine < 0.0 ==>
      SlammingForce(n, previousBuffer, currentBuffer, triangle, maxAcceleration, rampUpPower, totalMass, totalArea, fixedDeltaTime) == Zero
    ensures Dot(SlammingForce(n, previousBuffer, currentBuffer, triangle, maxAcceleration, rampUpPower, totalMass, totalArea, fixedDeltaTime),
      triangle.velocity) <= 0.0
  {
    if triangle.cosine >= 0.0 {
      var share := totalMass * n.divide(2.0 * triangle.area, totalArea);
      var ratio := SlammingRatio(n, SlammingAcceleration(n, previousBuffer, currentBuffer, fixedDeltaTime), maxAcceleration);
      var p := n.pow(ratio, rampUpPower);
      assert p >= 0.0 by {
        assert 0.0 <= ratio <= 1.0;
      }
      assert share >= 0.0 && -1.0 * p * triangle.cosine <= 0.0 by {
        SharePositiveRampNegative(n, totalMass, triangle.area, totalArea, p, triangle.cosine);
      }
      SlammingForceScalesVelocity(n, previousBuffer, currentBuffer, triangle, maxAcceleration, rampUpPower, totalMass, totalArea, fixedDeltaTime);
      OpposedScaling(triangle.velocity, share, -1.0 * p * triangle.cosine);
    }
  }

  /** The mass share of a piece is non-negative and the signed ramp of an approaching piece is not positive. */
  lemma SharePositiveRampNegative(n: Numerics, totalMass: real, area: real, totalArea: real, p: real, cosine: real)
    requires DivideLaws(n) && totalMass >= 0.0 && area >= 0.0 && totalArea > 0.0 && p >= 0.0 && cosine >= 0.0
    ensures totalMass * n.divide(2.0 * area, totalArea) >= 0.0
    ensures -1.0 * p * cosine <= 0.0
  {
    DivideExact(n, 2.0 * area, totalArea);
    var q := n.divide(2.0 * area, totalArea);
    assert q >= 0.0;
    ProductNonNegative(totalMass, q, totalMass * q);
    ProductNonNegative(p, cosine, p * cosine);
  }

  /** On a piece that is not receding, slamming is the velocity scaled by the mass share and then by the signed ramp. */
  lemma SlammingForceScalesVelocity(n: Numerics, previousBuffer: TriangleBuffer, currentBuffer: TriangleBuffer, triangle: TriangleInfo,
    maxAcceleration: real, rampUpPower: real, totalMass: real, totalArea: real, fixedDeltaTime: real)
    requires triangle.cosine >= 0.0
    ensures var share := totalMass * n.divide(2.0 * triangle.area, totalArea);
      var p := n.pow(SlammingRatio(n, SlammingAcceleration(n, previousBuffer, currentBuffer, fixedDeltaTime), maxAcceleration), rampUpPower);
      SlammingForce(n, previousBuffer, currentBuffer, triangle, maxAcceleration, rampUpPower, totalMass, totalArea, fixedDeltaTime)
        == Scale(Scale(triangle.velocity, share), -1.0 * p * triangle.cosine)
  {
  }

  /** Scaling a vector by a non-negative and then a non-positive factor turns it against itself. */
  lemma OpposedScaling(v: Vec3, share: real, k: real)
    requires share >= 0.0 && k <= 0.0
    ensures Dot(Scale(Scale(v, share), k), v) <= 0.0
  {
    DotSelfNonNegative(v);
    assert Dot(Scale(Scale(v, share), k), v) == (share * k) * Dot(v, v);
    assert share * k <= 0.0;
    ProductNonNegative(-(share * k), Dot(v, v), -(share * k) * Dot(v, v));
  }

  /** A piece whose buffer did not change since the previous step feels no slamming. */
  lemma {:induction false} SteadyBufferNoSlamming(n: Numerics, buffer: TriangleBuffer, triangle: TriangleInfo,
    maxAcceleration: real, rampUpPower: real, totalMass: real, totalArea: real, fixedDeltaTime: real)
    requires SqrtLaws(n) && DivideLaws(n) && PowLaws(n)
    requires buffer.originalArea != 0.0 && fixedDeltaTime != 0.0 && maxAcceleration != 0.0 && rampUpPower > 0.0
    ensures SlammingForce(n, buffer, buffer, triangle, maxAcceleration, rampUpPower, totalMass, totalArea, fixedDeltaTime) == Zero
  {
    SteadyBufferNoAcceleration(n, buffer, maxAcceleration, fixedDeltaTime);
    ZeroRatioNoSlamming(n, buffer, triangle, maxAcceleration, rampUpPower, totalMass, totalArea, fixedDeltaTime);
  }

  lemma SteadyBufferNoAcceleration(n: Numerics, buffer: TriangleBuffer, maxAcceleration: real, fixedDeltaTime: real)
    requires SqrtLaws(n) && DivideLaws(n)
    requires buffer.originalArea != 0.0 && fixedDeltaTime != 0.0 && maxAcceleration != 0.0
    ensures SlammingAcceleration(n, buffer, buffer, fixedDeltaTime) == Zero
    ensures SlammingRatio(n, SlammingAcceleration(n, buffer, buffer, fixedDeltaTime), maxAcceleration) == 0.0
  {
    SteadySweptVolume(n, buffer, fixedDeltaTime);
    ZeroAccelerationRatio(n, maxAcceleration);
  }

  lemma SteadySweptVolume(n: Numerics, buffer: TriangleBuffer, fixedDeltaTime: real)
    requires DivideLaws(n) && buffer.originalArea != 0.0 && fixedDeltaTime != 0.0
    ensures SlammingAcceleration(n, buffer, buffer, fixedDeltaTime) == Zero
  {
    var d := buffer.originalArea * fixedDeltaTime;
    assert d != 0.0;
    var swept := Scale(buffer.velocity, buffer.submergedArea);
    assert Sub(swept, swept) == Zero;
    DivideExact(n, 0.0, d);
  }

  lemma ZeroAccelerationRatio(n: Numerics, maxAcceleration: real)
    requires SqrtLaws(n) && DivideLaws(n) && maxAcceleration != 0.0
    ensures SlammingRatio(n, Zero, maxAcceleration) == 0.0
  {
    SqrtZero(n);
    assert Magnitude(n, Zero) == 0.0;
    DivideExact(n, 0.0, maxAcceleration);
  }

  lemma ZeroRatioNoSlamming(n: Numerics, buffer: TriangleBuffer, triangle: TriangleInfo,
    maxAcceleration: real, rampUpPower: real, totalMass: real, totalArea: real, fixedDeltaTime: real)
    requires PowLaws(n) && rampUpPower > 0.0
    requires SlammingRatio(n, SlammingAcceleration(n, buffer, buffer, fixedDeltaTime), maxAcceleration) == 0.0
    ensures SlammingForce(n, buffer, buffer, triangle, maxAcceleration, rampUpPower, totalMass, totalArea, fixedDeltaTime) == Zero
  {
    ScaleByVanishingFactor(StoppingForce(n, triangle, totalMass, totalArea), 0.0, triangle.cosine);
  }

  lemma ScaleByVanishingFactor(v: Vec3, p: real, c: real)
    requires p == 0.0
    ensures Scale(v, -1.0 * p * c) == Zero
  {
  }

  /**
   * On the first step the previous buffer is the default (all zero), so the
   * acceleration is the whole swept volume rate, not a change of it.
   */
  lemma FirstStepAcceleration(n: Numerics, currentBuffer: TriangleBuffer, fixedDeltaTime: real)
    requires DivideLaws(n) && currentBuffer.originalArea * fixedDeltaTime != 0.0
    ensures SlammingAcceleration(n, ZeroBuffer, currentBuffer, fixedDeltaTime)
      == Scale(currentBuffer.velocity, currentBuffer.submergedArea / (currentBuffer.originalArea * fixedDeltaTime))
  {
    var d := currentBuffer.originalArea * fixedDeltaTime;
    var v := currentBuffer.velocity;
    var a := currentBuffer.submergedArea;
    DivideExact(n, v.x * a - 0.0, d);
    DivideExact(n, v.y * a - 0.0, d);
    DivideExact(n, v.z * a - 0.0, d);
    assert (v.x * a) / d == v.x * (a / d);
    assert (v.y * a) / d == v.y * (a / d);
    assert (v.z * a) / d == v.z * (a / d);
  }
}
