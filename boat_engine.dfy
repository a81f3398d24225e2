// BoatEngine: the throttle. Each frame the vertical input axis raises,
// lowers or releases a clamped acceleration; each physics step the engine
// records the body's speed and pushes the body along the engine's down
// axis by that acceleration.

module BoatEngine {
  import opened UnityMath

  /** The engine's Transform as the engine reads it: its up axis and its position, in world space. */
  datatype EngineTransform = EngineTransform(up: Vec3, position: Vec3)

  function Min(a: real, b: real): real {
    if a <= b then a else b
  }

  /**
   * UpdateUserInput on the acceleration: a positive axis adds enginePower
   * and clamps to [0, maxAcceleration], a negative one subtracts it and
   * clamps to [-maxBackwardAcceleration, 0], and no input releases the
   * throttle.
   */
  function NextAcceleration(acc: real, power: real, maxAcc: real, maxBack: real, axis: real): (r: real)
    ensures axis > 0.0 && maxAcc >= 0.0 ==> 0.0 <= r <= maxAcc
    ensures axis < 0.0 && maxBack >= 0.0 ==> -maxBack <= r <= 0.0
    ensures axis == 0.0 ==> r == 0.0
    ensures axis > 0.0 && 0.0 <= acc + power <= maxAcc ==> r == acc + power
    ensures axis < 0.0 && -maxBack <= acc - power <= 0.0 ==> r == acc - power
  {
    if axis > 0.0 then Clamp(acc + power, 0.0, maxAcc)
    else if axis < 0.0 then Clamp(acc - power, -maxBack, 0.0)
    else 0.0
  }

  /** The acceleration after k frames with the same input, starting from acc. */
  function Held(acc: real, power: real, maxAcc: real, maxBack: real, axis: real, k: nat): real {
    if k == 0 then acc else NextAcceleration(Held(acc, power, maxAcc, maxBack, axis, k - 1), power, maxAcc, maxBack, axis)
  }

  /** The input a forward or backward hold has accumulated after k frames: k times enginePower. */
  function Pressed(power: real, k: nat): (r: real)
    ensures power >= 0.0 ==> r >= 0.0
  {
    if k == 0 then 0.0 else Pressed(power, k - 1) + power
  }

  lemma {:induction false} PressedIsProduct(power: real, k: nat)
    ensures Pressed(power, k) == k as real * power
  {
    if k > 0 {
      PressedIsProduct(power, k - 1);
      assert k as real * power == (k - 1) as real * power + power;
    }
  }

  /** One forward frame from an acceleration that is the sum so far, capped. */
  lemma ForwardStep(sum: real, power: real, maxAcc: real, maxBack: real, axis: real)
    requires axis > 0.0 && power >= 0.0 && maxAcc >= 0.0 && sum >= 0.0
    ensures NextAcceleration(Min(sum, maxAcc), power, maxAcc, maxBack, axis) == Min(sum + power, maxAcc)
  {
  }

  /** One backward frame from an acceleration that is minus the sum so far, capped. */
  lemma BackwardStep(sum: real, power: real, maxAcc: real, maxBack: real, axis: real)
    requires axis < 0.0 && power >= 0.0 && maxBack >= 0.0 && sum >= 0.0
    ensures NextAcceleration(-Min(sum, maxBack), power, maxAcc, maxBack, axis) == -Min(sum + power, maxBack)
  {
  }

  lemma {:induction false} HeldForward(power: real, maxAcc: real, maxBack: real, axis: real, k: nat)
    requires axis > 0.0 && power >= 0.0 && maxAcc >= 0.0
    ensures Held(0.0, power, maxAcc, maxBack, axis, k) == Min(Pressed(power, k), maxAcc)
  {
    if k > 0 {
      HeldForward(power, maxAcc, maxBack, axis, k - 1);
      ForwardStep(Pressed(power, k - 1), power, maxAcc, maxBack, axis);
    }
  }

  lemma {:induction false} HeldBackward(power: real, maxAcc: real, maxBack: real, axis: real, k: nat)
    requires axis < 0.0 && power >= 0.0 && maxBack >= 0.0
    ensures Held(0.0, power, maxAcc, maxBack, axis, k) == -Min(Pressed(power, k), maxBack)
  {
    if k > 0 {
      HeldBackward(power, maxAcc, maxBack, axis, k - 1);
      BackwardStep(Pressed(power, k - 1), power, maxAcc, maxBack, axis);
    }
  }

  /**
   * Holding the input forward from a released throttle raises the
   * acceleration by enginePower per frame until it saturates at
   * maxAcceleration.
   */
  lemma HeldForwardSaturates(power: real, maxAcc: real, maxBack: real, axis: real, k: nat)
    requires axis > 0.0 && power >= 0.0 && maxAcc >= 0.0
    ensures Held(0.0, power, maxAcc, maxBack, axis, k) == Min(k as real * power, maxAcc)
  {
    HeldForward(power, maxAcc, maxBack, axis, k);
    PressedIsProduct(power, k);
  }

  /** Holding the input backward lowers the acceleration by enginePower per frame down to -maxBackwardAcceleration. */
  lemma HeldBackwardSaturates(power: real, maxAcc: real, maxBack: real, axis: real, k: nat)
    requires axis < 0.0 && power >= 0.0 && maxBack >= 0.0
    ensures Held(0.0, power, maxAcc, maxBack, axis, k) == -Min(k as real * power, maxBack)
  {
    HeldBackward(power, maxAcc, maxBack, axis, k);
    PressedIsProduct(power, k);
  }

  /**
   * Reversing the input never carries acceleration across zero: pressing
   * forward while going backward leaves a non-negative acceleration no
   * larger than enginePower, whatever the backward acceleration was.
   */
  lemma ForwardFromReverse(acc: real, power: real, maxAcc: real, maxBack: real, axis: real)
    requires axis > 0.0 && acc <= 0.0 && power >= 0.0 && maxAcc >= 0.0
    ensures 0.0 <= NextAcceleration(acc, power, maxAcc, maxBack, axis) <= Min(power, maxAcc)
  {
  }

  /** AddForce: -engineTransform.up * currentAcceleration, at the engine's position. */
  function EngineForce(t: EngineTransform, acc: real): (r: AppliedForce)
    ensures r.point == t.position
    ensures acc == 0.0 ==> r.force == Zero
  {
    AppliedForce(Scale(Neg(t.up), acc), t.position)
  }

  /** A positive acceleration pushes against the engine's up axis, a negative one along it. */
  lemma EngineForceOpposesUp(t: EngineTransform, acc: real)
    ensures Dot(EngineForce(t, acc).force, t.up) == -(acc * Dot(t.up, t.up))
  {
    var u := t.up;
    assert Dot(Scale(Neg(u), acc), u) == -(u.x * acc * u.x) - (u.y * acc * u.y) - (u.z * acc * u.z);
  }

  class BoatEngine {
    var enginePower: real
    var currentSpeed: real
    var currentAcceleration: real
    var maxAcceleration: real
    var maxBackwardAcceleration: real
    var engineTransform: EngineTransform
    var applied: seq<AppliedForce>  // the calls Rigidbody.AddForceAtPosition received, in order

    /** Non-negative settings and an acceleration between the two limits. */
    ghost predicate Valid()
      reads this
    {
      && enginePower >= 0.0 && maxAcceleration >= 0.0 && maxBackwardAcceleration >= 0.0
      && -maxBackwardAcceleration <= currentAcceleration <= maxAcceleration
    }

    /** Update: reads the input, nothing else. */
    method Update(axis: real)
      modifies this`currentAcceleration
      ensures currentAcceleration == NextAcceleration(old(currentAcceleration), enginePower, maxAcceleration,
        maxBackwardAcceleration, axis)
      ensures old(Valid()) ==> Valid()
    {
      UpdateUserInput(axis);
    }

    /** UpdateUserInput, with Input.GetAxis("Vertical") as a parameter. */
    method UpdateUserInput(axis: real)
      modifies this`currentAcceleration
      ensures currentAcceleration == NextAcceleration(old(currentAcceleration), enginePower, maxAcceleration,
        maxBackwardAcceleration, axis)
      ensures old(Valid()) ==> Valid()
    {
      if axis > 0.0 {
        currentAcceleration := Clamp(currentAcceleration + enginePower, 0.0, maxAcceleration);
      } else if axis < 0.0 {
        currentAcceleration := Clamp(currentAcceleration - enginePower, -maxBackwardAcceleration, 0.0);
      } else {
        currentAcceleration := 0.0;
      }
    }

    /** FixedUpdate, with the rigid body's velocity as a parameter: record the speed, then push. */
    method FixedUpdate(n: Numerics, velocity: Vec3)
      modifies this`currentSpeed, this`applied
      ensures currentSpeed == Magnitude(n, velocity)
      ensures SqrtLaws(n) ==> currentSpeed >= 0.0
      ensures applied == old(applied) + [EngineForce(engineTransform, currentAcceleration)]
    {
      currentSpeed := Magnitude(n, velocity);
      if SqrtLaws(n) {
        MagnitudeSquared(n, velocity);
      }
      AddForce();
    }

    /** AddForce: one force at the engine's position, along its down axis. */
    method AddForce()
      modifies this`applied
      ensures applied == old(applied) + [EngineForce(engineTransform, currentAcceleration)]
    {
      var force := Scale(Neg(engineTransform.up), currentAcceleration);
      applied := applied + [AppliedForce(force, engineTransform.position)];
    }
  }
}
