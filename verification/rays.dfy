/**
 * `Ray` (Ray.cs): an origin and a direction. `Position` in the source is a
 * stub that returns the origin; the book's position function, which the
 * source's own test expects, is `Position` here and the stub is
 * `PositionAsWritten`.
 */
module Rays {
  import opened Numerics
  import opened Primitives

  datatype Ray = Ray(origin: Vector4, direction: Vector4)

  /** `Ray.Position(t)` as the source has it: the origin, whatever `t` is. */
  function PositionAsWritten(r: Ray, t: real): (p: Vector4)
    ensures IsPoint(r.origin) ==> IsPoint(p)
  {
    r.origin
  }

  /** The point at distance `t` along the ray: origin + t·direction. */
  function Position(r: Ray, t: real): (p: Vector4)
    ensures r.origin.w == 1.0 && r.direction.w == 0.0 ==> p.w == 1.0
  {
    Add(r.origin, Scale(r.direction, t))
  }

  /**
   * `Ray.Transform(m)`: both origin and direction go through `m` (row-vector
   * convention), so every point of the transformed ray is the transformed
   * point of the original ray.
   */
  function TransformRay(r: Ray, m: Matrix4x4): (q: Ray)
    ensures forall t :: Position(q, t) == Transform(Position(r, t), m)
  {
    var q := Ray(Transform(r.origin, m), Transform(r.direction, m));
    assert forall t :: Position(q, t) == Transform(Position(r, t), m) by {
      forall t ensures Position(q, t) == Transform(Position(r, t), m) {
        TransformLinear(r.origin, r.direction, t, m);
      }
    }
    q
  }

  // ------------------------------------------------------------------ facts

  /** The identity leaves a ray as it is. */
  lemma TransformRayIdentity(r: Ray)
    ensures TransformRay(r, Identity) == r
  {
    TransformIdentity(r.origin);
    TransformIdentity(r.direction);
  }

  /** The stub ignores its argument. */
  lemma PositionAsWrittenIgnoresT(r: Ray, t1: real, t2: real)
    ensures PositionAsWritten(r, t1) == PositionAsWritten(r, t2) == r.origin
  {
  }

  /** The stub agrees with origin + t·direction exactly when t = 0 or the direction is zero. */
  lemma PositionAsWrittenAgreement(r: Ray, t: real)
    ensures PositionAsWritten(r, t) == Position(r, t) <==> t == 0.0 || r.direction == Zero4
  {
    if PositionAsWritten(r, t) == Position(r, t) && t != 0.0 {
      var d := r.direction;
      assert d.x * t == 0.0 && d.y * t == 0.0 && d.z * t == 0.0 && d.w * t == 0.0;
    }
  }

  /** The displacement from the origin is t·direction; at t = 0 the point is the origin. */
  lemma PositionDisplacement(r: Ray, t: real)
    ensures Sub(Position(r, t), r.origin) == Scale(r.direction, t)
    ensures Position(r, 0.0) == r.origin
  {
  }

  /** Walking s and then t along the same direction is walking s + t. */
  lemma PositionAdditive(r: Ray, s: real, t: real)
    ensures Position(Ray(Position(r, s), r.direction), t) == Position(r, s + t)
  {
  }

  /**
   * The position test: from (2, 3, 4) along (1, 0, 0) the point at t is
   * (2 + t, 3, 4), which covers the test's rows t = 0, 1, -1 and 2.5; the stub
   * stays at (2, 3, 4).
   */
  lemma PositionTestRay(t: real)
    ensures Position(Ray(Point(2.0, 3.0, 4.0), Vector(1.0, 0.0, 0.0)), t) == Point(2.0 + t, 3.0, 4.0)
    ensures PositionAsWritten(Ray(Point(2.0, 3.0, 4.0), Vector(1.0, 0.0, 0.0)), t) == Point(2.0, 3.0, 4.0)
  {
  }
}
