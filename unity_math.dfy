/*
 * The parts of Unity's math and physics API that the water-interaction core
 * relies on: Vector3 arithmetic, Mathf clamps, and the rigid-body state read
 * once per physics step. Floats are modelled as reals. Square roots, sines,
 * Vector3.Angle, log10, pow and IEEE division are not computed by the model:
 * they are fields of a `Numerics` record, and `Lawful` states the few facts
 * about them the proofs use.
 */
module UnityMath {

  datatype Vec3 = Vec3(x: real, y: real, z: real)

  const Zero: Vec3 := Vec3(0.0, 0.0, 0.0)

  function Add(a: Vec3, b: Vec3): Vec3 { Vec3(a.x + b.x, a.y + b.y, a.z + b.z) }

  function Sub(a: Vec3, b: Vec3): Vec3 { Vec3(a.x - b.x, a.y - b.y, a.z - b.z) }

  function Neg(a: Vec3): Vec3 { Vec3(-a.x, -a.y, -a.z) }

  /** `a * k` and `k * a` for a Vector3 `a` and a float `k`. */
  function Scale(a: Vec3, k: real): Vec3 { Vec3(a.x * k, a.y * k, a.z * k) }

  function Dot(a: Vec3, b: Vec3): real { a.x * b.x + a.y * b.y + a.z * b.z }

  /** Vector3.Cross(lhs, rhs). */
  function Cross(a: Vec3, b: Vec3): Vec3 {
    Vec3(a.y * b.z - a.z * b.y, a.z * b.x - a.x * b.z, a.x * b.y - a.y * b.x)
  }

  /** The operations the model leaves uninterpreted. */
  datatype Numerics = Numerics(
    sqrt: real -> real,
    sin: real -> real,
    pi: real,
    angle: (Vec3, Vec3) -> real,  // Vector3.Angle, in degrees
    log10: real -> real,
    pow: (real, real) -> real,
    divide: (real, real) -> real) // IEEE float division; NaN or infinite at 0

  ghost predicate SqrtLaws(n: Numerics) {
    forall x :: x >= 0.0 ==> n.sqrt(x) >= 0.0 && n.sqrt(x) * n.sqrt(x) == x
  }

  ghost predicate TrigLaws(n: Numerics) {
    && n.pi > 0.0
    && (forall r :: 0.0 <= r <= n.pi ==> n.sin(r) >= 0.0)
    && (forall r :: n.sin(r) <= 1.0)
    && (forall u, v :: 0.0 <= n.angle(u, v) <= 180.0)
  }

  ghost predicate LogLaws(n: Numerics) {
    && (forall a, b :: 0.0 < a <= b ==> n.log10(a) <= n.log10(b))
    && (forall a, b :: 0.0 < a && 0.0 < b ==> n.log10(a * b) == n.log10(a) + n.log10(b))
  }

  ghost predicate PowLaws(n: Numerics) {
    && (forall b, e :: b > 0.0 ==> n.pow(b, e) > 0.0)
    && (forall b, e :: 0.0 <= b <= 1.0 && e > 0.0 ==> 0.0 <= n.pow(b, e) <= 1.0)
    && (forall b :: n.pow(b, 2.0) == b * b)
    && (forall e :: e > 0.0 ==> n.pow(0.0, e) == 0.0)
  }

  ghost predicate DivideLaws(n: Numerics) {
    forall a, b :: b != 0.0 ==> n.divide(a, b) == a / b
  }

  /** What every proof may assume of the uninterpreted operations. */
  ghost predicate Lawful(n: Numerics) {
    SqrtLaws(n) && TrigLaws(n) && LogLaws(n) && PowLaws(n) && DivideLaws(n)
  }

  /** Vector3.magnitude. */
  function Magnitude(n: Numerics, a: Vec3): real { n.sqrt(Dot(a, a)) }

  /** Vector3.Distance(a, b). */
  function Distance(n: Numerics, a: Vec3, b: Vec3): real { Magnitude(n, Sub(a, b)) }

  /** Unity's Vector3.kEpsilon, the magnitude below which normalising yields zero. */
  const NormalizeEpsilon: real := 0.00001

  /** Vector3.normalized and Vector3.Normalize(). */
  function Normalized(n: Numerics, a: Vec3): Vec3 {
    var m := Magnitude(n, a);
    if m > NormalizeEpsilon then Vec3(a.x / m, a.y / m, a.z / m) else Zero
  }

  /** Vector division by a float that may be zero. */
  function DivideVec(n: Numerics, a: Vec3, k: real): Vec3 {
    Vec3(n.divide(a.x, k), n.divide(a.y, k), n.divide(a.z, k))
  }

  /** Mathf.Deg2Rad. */
  function Deg2Rad(n: Numerics): real { n.pi * 2.0 / 360.0 }

  /** Mathf.Clamp(value, min, max): the lower bound is tested first. */
  function Clamp(value: real, min: real, max: real): (r: real)
    ensures min <= max ==> min <= r <= max
    ensures min <= value <= max ==> r == value
  {
    if value < min then min else if value > max then max else value
  }

  /** Mathf.Clamp01. */
  function Clamp01(value: real): (r: real)
    ensures 0.0 <= r <= 1.0
    ensures 0.0 <= value <= 1.0 ==> r == value
  {
    if value < 0.0 then 0.0 else if value > 1.0 then 1.0 else value
  }

  /** Integer remainder of C#, which truncates toward zero (Dafny's `%` is Euclidean). */
  function Rem(a: int, b: int): (r: int)
    requires b > 0
    ensures a >= 0 ==> 0 <= r < b && r == a % b
    ensures a < 0 ==> -b < r <= 0
  {
    if a >= 0 then a % b else -((-a) % b)
  }

  /** The rigid body's state as read during one physics step. */
  datatype RigidbodyState = RigidbodyState(
    velocity: Vec3, angularVelocity: Vec3, worldCenterOfMass: Vec3, mass: real)

  /** The collaborators one physics step consults, passed explicitly. */
  datatype Context = Context(
    math: Numerics,
    water: (Vec3, real) -> real,   // signed distance to the water surface at a time
    body: RigidbodyState,
    transform: Vec3 -> Vec3,       // Transform.TransformPoint
    gravityY: real)                // Physics.gravity.y

  /** A value, or none where the source would throw. */
  datatype Option<T> = None | Some(value: T)

  /** A call Rigidbody.AddForceAtPosition(force, point). */
  datatype AppliedForce = AppliedForce(force: Vec3, point: Vec3)

  // ---------------------------------------------------------------------
  // Facts about the vector algebra and the numerics.

  lemma SqrtOf(n: Numerics, x: real)
    requires SqrtLaws(n) && x >= 0.0
    ensures n.sqrt(x) >= 0.0 && n.sqrt(x) * n.sqrt(x) == x
  {
  }

  lemma SqrtZero(n: Numerics)
    requires SqrtLaws(n)
    ensures n.sqrt(0.0) == 0.0
  {
    var r := n.sqrt(0.0);
    assert r >= 0.0 && r * r == 0.0;
    if r > 0.0 { ProductPositive(r, r, 0.0); }
  }

  lemma DivideExact(n: Numerics, a: real, b: real)
    requires DivideLaws(n) && b != 0.0
    ensures n.divide(a, b) == a / b
  {
  }

  lemma MagnitudeSquared(n: Numerics, a: Vec3)
    requires SqrtLaws(n)
    ensures Magnitude(n, a) >= 0.0
    ensures Magnitude(n, a) * Magnitude(n, a) == Dot(a, a)
  {
    SqrtOf(n, Dot(a, a));
  }

  /** Lagrange's identity: |a|^2 |b|^2 - (a.b)^2 = |a x b|^2. */
  lemma {:induction false} LagrangeIdentity(a: Vec3, b: Vec3)
    ensures Dot(a, a) * Dot(b, b) - Dot(a, b) * Dot(a, b) == Dot(Cross(a, b), Cross(a, b))
  {
    var c := Cross(a, b);
    assert c.x * c.x == a.y * a.y * b.z * b.z - 2.0 * a.y * b.z * a.z * b.y + a.z * a.z * b.y * b.y;
    assert c.y * c.y == a.z * a.z * b.x * b.x - 2.0 * a.z * b.x * a.x * b.z + a.x * a.x * b.z * b.z;
    assert c.z * c.z == a.x * a.x * b.y * b.y - 2.0 * a.x * b.y * a.y * b.x + a.y * a.y * b.x * b.x;
  }

  lemma SquareNonNegative(r: real)
    ensures r * r >= 0.0
  {
    if r < 0.0 { assert r * r == (-r) * (-r); }
  }

  lemma DotSelfNonNegative(a: Vec3)
    ensures Dot(a, a) >= 0.0
  {
    SquareNonNegative(a.x); SquareNonNegative(a.y); SquareNonNegative(a.z);
  }

  /** Cauchy-Schwarz: (a.b)^2 <= (a.a)(b.b). */
  lemma {:induction false} CauchySchwarz(a: Vec3, b: Vec3)
    ensures Dot(a, b) * Dot(a, b) <= Dot(a, a) * Dot(b, b)
  {
    LagrangeIdentity(a, b);
    DotSelfNonNegative(Cross(a, b));
  }

  /** A product of two positive reals is positive. */
  lemma ProductPositive(a: real, b: real, p: real)
    requires a > 0.0 && b > 0.0 && p == a * b
    ensures p > 0.0
  {
  }

  /** A product of two non-negative reals is non-negative. */
  lemma ProductNonNegative(a: real, b: real, p: real)
    requires a >= 0.0 && b >= 0.0 && p == a * b
    ensures p >= 0.0
  {
  }

  /** The quotient of num by a non-zero den is the q with q * den == num. */
  lemma QuotientIs(num: real, den: real, q: real)
    requires den != 0.0 && q * den == num
    ensures num / den == q
  {
  }

  lemma DotLinear(a: Vec3, b: Vec3, c: Vec3, k: real)
    ensures Dot(Scale(a, k), c) == k * Dot(a, c)
    ensures Dot(Neg(a), c) == -Dot(a, c)
    ensures Dot(Sub(a, b), c) == Dot(a, c) - Dot(b, c)
    ensures Dot(a, c) == Dot(c, a)
  {
  }

  /** Scaling each coordinate by 1/m with m*m equal to the squared length gives length 1. */
  lemma UnitAfterDivision(a: Vec3, m: real)
    requires m > 0.0 && m * m == Dot(a, a)
    ensures Dot(Vec3(a.x / m, a.y / m, a.z / m), Vec3(a.x / m, a.y / m, a.z / m)) == 1.0
  {
    var k := 1.0 / m;
    assert a.x / m == a.x * k && a.y / m == a.y * k && a.z / m == a.z * k;
    assert k * m == 1.0;
    calc {
      (a.x * k) * (a.x * k) + (a.y * k) * (a.y * k) + (a.z * k) * (a.z * k);
      (a.x * a.x + a.y * a.y + a.z * a.z) * (k * k);
      (m * m) * (k * k);
      (m * k) * (m * k);
      1.0;
    }
  }

  /** A normalised vector has unit length, or is zero when the input was too short. */
  lemma {:induction false} NormalizedUnitOrZero(n: Numerics, a: Vec3)
    requires SqrtLaws(n)
    ensures Normalized(n, a) == Zero || Dot(Normalized(n, a), Normalized(n, a)) == 1.0
  {
    var m := Magnitude(n, a);
    if m > NormalizeEpsilon {
      MagnitudeSquared(n, a);
      UnitAfterDivision(a, m);
    }
  }

  /** Normalising keeps the sign of a dot product. */
  lemma {:induction false} NormalizedDotSign(n: Numerics, a: Vec3, b: Vec3)
    ensures Dot(a, b) == 0.0 ==> Dot(Normalized(n, a), b) == 0.0
    ensures Dot(a, b) <= 0.0 ==> Dot(Normalized(n, a), b) <= 0.0
  {
    var m := Magnitude(n, a);
    if m > NormalizeEpsilon {
      var k := 1.0 / m;
      assert Normalized(n, a) == Scale(a, k);
      DotLinear(a, a, b, k);
      assert k > 0.0;
      if Dot(a, b) <= 0.0 {
        ProductNonNegative(k, -Dot(a, b), -(k * Dot(a, b)));
      }
    }
  }

  /** From p^2 <= q^2 with q >= 0 follows |p| <= q. */
  lemma AbsFromSquares(p: real, q: real)
    requires q >= 0.0 && p * p <= q * q
    ensures -q <= p <= q
  {
    if p > q {
      ProductPositive(p - q, p + q, p * p - q * q);
    }
    if p < -q {
      ProductPositive(-p - q, -p + q, p * p - q * q);
    }
  }

  /**
   * The cosine between a vector and a unit-or-zero direction lies in [-1, 1]:
   * |v.u| <= |v|.
   */
  lemma {:induction false} DotBoundedByMagnitude(n: Numerics, v: Vec3, u: Vec3)
    requires SqrtLaws(n)
    requires u == Zero || Dot(u, u) == 1.0
    ensures -Magnitude(n, v) <= Dot(v, u) <= Magnitude(n, v)
  {
    MagnitudeSquared(n, v);
    CauchySchwarz(v, u);
    var m := Magnitude(n, v);
    if u == Zero {
      assert Dot(v, u) == 0.0;
    } else {
      assert Dot(v, u) * Dot(v, u) <= m * m;
      AbsFromSquares(Dot(v, u), m);
    }
  }

  lemma {:induction false} DistanceNonNegative(n: Numerics, a: Vec3, b: Vec3)
    requires SqrtLaws(n)
    ensures Distance(n, a, b) >= 0.0
    ensures a == b ==> Distance(n, a, b) == 0.0
  {
    MagnitudeSquared(n, Sub(a, b));
    if a == b {
      var d := Distance(n, a, b);
      assert d * d == 0.0;
      if d > 0.0 { ProductPositive(d, d, 0.0); }
    }
  }
}
