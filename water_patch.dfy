/*
 * The water height field of WaterPatch.cs. The wave functions are commented
 * out in the source, so the surface is the plane y = 0 at all times and the
 * signed distance to the water is a point's y coordinate.
 */
module WaterPatch {
  import opened UnityMath

  /** The surface height below or above a position; the surface is flat. */
  function GetWaveYPos(position: Vec3, timeSinceStart: real): (y: real)
    ensures y == 0.0
  {
    0.0
  }

  /** Signed vertical distance to the surface; positive above the water. */
  function DistanceToWater(position: Vec3, timeSinceStart: real): (d: real)
    ensures d == position.y
  {
    var waterHeight := GetWaveYPos(position, timeSinceStart);
    position.y - waterHeight
  }

  /** The height field the rest of the model takes as a parameter, instantiated with this patch. */
  function FlatWater(): (Vec3, real) -> real {
    (p: Vec3, t: real) => DistanceToWater(p, t)
  }

  /** Whether a context queries this flat patch for its water heights. */
  ghost predicate OnFlatWater(ctx: Context) {
    forall p, t :: ctx.water(p, t) == p.y
  }

  lemma FlatWaterIsFlat(ctx: Context)
    requires ctx.water == FlatWater()
    ensures OnFlatWater(ctx)
  {
  }

  /** The distance ignores the time stamp and the horizontal coordinates. */
  lemma DistanceIgnoresTimeAndPlane(p: Vec3, q: Vec3, t: real, s: real)
    requires p.y == q.y
    ensures DistanceToWater(p, t) == DistanceToWater(q, s)
  {
  }

  /** Above the water exactly when above the plane y = 0; on the surface exactly on it. */
  lemma DistanceSign(p: Vec3, t: real)
    ensures DistanceToWater(p, t) > 0.0 <==> p.y > 0.0
    ensures DistanceToWater(p, t) == 0.0 <==> p.y == 0.0
  {
  }
}
