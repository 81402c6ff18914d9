/**
 * `Sphere` (Sphere.cs): the unit sphere at the origin of its object space,
 * placed in the world by a transform whose inverse it keeps alongside, and
 * the `Intersection` record it yields. `Matrix4x4.Invert` and
 * `MathF.Sqrt`/`Vector4.Normalize` are not modelled: the inverse is
 * supplied with the transform and square roots come in as a function.
 */
module Spheres {
  import opened Numerics
  import opened Primitives
  import opened Rays
  import opened Materials
  import opened Quadratics

  datatype Sphere = Sphere(transform: Matrix4x4, transformInverse: Matrix4x4, material: Material)

  /** `Intersection(Object, T)`. */
  datatype Intersection = Intersection(obj: Sphere, t: real)

  /** `Sphere.Center`: the object-space origin. */
  const Center: Vector4 := Point(0.0, 0.0, 0.0)

  /** `new Sphere()`: identity transform and inverse, default material. */
  const DefaultSphere: Sphere := Sphere(Identity, Identity, Default)

  /** The stored inverse really is the transform's inverse. */
  predicate Valid(s: Sphere) {
    IsInverse(s.transform, s.transformInverse)
  }

  /**
   * The `Transform` init accessor: stores the matrix and the inverse that
   * `Matrix4x4.Invert` computes, here supplied by the caller.
   */
  function WithTransform(s: Sphere, m: Matrix4x4, inv: Matrix4x4): (r: Sphere)
    requires IsInverse(m, inv)
    ensures Valid(r)
    ensures r.transform == m && r.transformInverse == inv && r.material == s.material
  {
    s.(transform := m, transformInverse := inv)
  }

  /** The world ray carried into object space by the stored inverse. */
  function ObjectRay(s: Sphere, r: Ray): Ray {
    TransformRay(r, s.transformInverse)
  }

  /** a, b and c of `Intersect`, from a ray already in object space. */
  function RayQuadratic(o: Ray): Quadratic {
    var sphereToRay := Sub(o.origin, Center);
    Quadratic(Dot(o.direction, o.direction),
              2.0 * Dot(o.direction, sphereToRay),
              Dot(sphereToRay, sphereToRay) - 1.0)
  }

  function Coefficients(s: Sphere, r: Ray): Quadratic {
    RayQuadratic(ObjectRay(s, r))
  }

  /**
   * `Sphere.Intersect`: nothing when the discriminant is negative, otherwise
   * the two intersections `(-b - ds) / 2a` and `(-b + ds) / 2a`, in that
   * order. A zero object-space direction (a = 0) makes the source divide
   * by zero; the model requires a != 0.
   */
  function Intersect(s: Sphere, r: Ray, sqrt: real -> real): (xs: seq<Intersection>)
    requires Coefficients(s, r).a != 0.0
    ensures |xs| == 0 || |xs| == 2
    ensures |xs| == 0 <==> Discriminant(Coefficients(s, r)) < 0.0
    ensures forall i :: 0 <= i < |xs| ==> xs[i].obj == s
  {
    var q := Coefficients(s, r);
    var discriminant := Discriminant(q);
    if discriminant >= 0.0 then
      var ds := sqrt(discriminant);
      [Intersection(s, Near(q, ds)), Intersection(s, Far(q, ds))]
    else
      []
  }

  /** The parameters of a list of intersections, in order. */
  function Times(xs: seq<Intersection>): seq<real> {
    seq(|xs|, i requires 0 <= i < |xs| => xs[i].t)
  }

  /**
   * The point at t along the object-space ray lies on the unit sphere
   * (as a 4-D dot product, like the source's) .
   */
  predicate OnUnitSphere(o: Ray, t: real) {
    var p := Sub(Position(o, t), Center);
    Dot(p, p) == 1.0
  }

  /**
   * `Sphere.NormalAt` before normalisation: the world point taken to object
   * space, minus the centre, taken back by the transpose of the inverse,
   * with w forced to 0. With no transform, it is the vector from the
   * centre to the point.
   */
  function WorldNormal(s: Sphere, p: Vector4): (n: Vector4)
    ensures n.w == 0.0
    ensures s.transformInverse == Identity ==> n == Vector(p.x, p.y, p.z)
  {
    var objectPoint := Transform(p, s.transformInverse);
    var objectNormal := Sub(objectPoint, Center);
    var n := Transform(objectNormal, Transpose(s.transformInverse)).(w := 0.0);
    assert s.transformInverse == Identity ==> n == Vector(p.x, p.y, p.z) by {
      if s.transformInverse == Identity {
        TransformIdentity(p);
        TransposeIdentity();
        TransformIdentity(objectNormal);
      }
    }
    n
  }

  /** `Sphere.NormalAt`: the world normal, normalised. */
  function NormalAt(s: Sphere, p: Vector4, sqrt: real -> real): (n: Vector4)
    requires Dot(WorldNormal(s, p), WorldNormal(s, p)) != 0.0
    requires SqrtOk(sqrt, Dot(WorldNormal(s, p), WorldNormal(s, p)))
    ensures IsVector(n)
  {
    Normalize(WorldNormal(s, p), sqrt)
  }

  // ------------------------------------------------------------------ facts

  /** The default sphere's inverse is right. */
  lemma DefaultValid()
    ensures Valid(DefaultSphere)
  {
    MultiplyIdentity(Identity);
  }

  /** Under a valid transform, going to the world and back to object space is the identity. */
  lemma ObjectSpaceRoundTrip(s: Sphere, p: Vector4)
    requires Valid(s)
    ensures Transform(Transform(p, s.transform), s.transformInverse) == p
  {
    TransformMultiply(p, s.transform, s.transformInverse);
    TransformIdentity(p);
  }

  /**
   * A transformed sphere meets a world ray where the unit sphere meets the
   * ray carried to object space.
   */
  lemma CoefficientsInObjectSpace(s: Sphere, r: Ray)
    ensures Coefficients(s, r) == Coefficients(DefaultSphere, ObjectRay(s, r))
  {
    TransformRayIdentity(ObjectRay(s, r));
  }

  /** The quadratic is the unit-sphere equation along the ray: its roots are where the ray meets the sphere. */
  lemma SphereEquation(o: Ray, t: real)
    ensures OnUnitSphere(o, t) <==> IsRoot(RayQuadratic(o), t)
  {
    var d, sr := o.direction, Sub(o.origin, Center);
    OffsetAlongRay(o, t);
    DotAlongLine(sr, d, t);
  }

  /** The offset from the centre at t is the origin's offset plus t times the direction. */
  lemma OffsetAlongRay(o: Ray, t: real)
    ensures Sub(Position(o, t), Center) == Add(Sub(o.origin, Center), Scale(o.direction, t))
  {
  }

  /** |s + t·d|² as a polynomial in t. */
  lemma DotAlongLine(s: Vector4, d: Vector4, t: real)
    ensures var p := Add(s, Scale(d, t));
            Dot(p, p) == Dot(d, d) * t * t + 2.0 * Dot(d, s) * t + Dot(s, s)
  {
    var p := Add(s, Scale(d, t));
    ExpandSquares(p.x, p.y, p.z, p.w, s.x, s.y, s.z, s.w, d.x, d.y, d.z, d.w, t, Dot(p, p), Dot(d, d), Dot(d, s), Dot(s, s));
  }

  /**
   * The intersections are exactly the parameters at which the object-space
   * ray meets the unit sphere: every returned t does, and every t that does
   * is returned.
   */
  lemma IntersectExactlyTheHits(s: Sphere, r: Ray, sqrt: real -> real, t: real)
    requires Coefficients(s, r).a != 0.0
    requires SqrtOk(sqrt, Discriminant(Coefficients(s, r)))
    ensures t in Times(Intersect(s, r, sqrt)) <==> OnUnitSphere(ObjectRay(s, r), t)
  {
    var q, xs := Coefficients(s, r), Intersect(s, r, sqrt);
    SphereEquation(ObjectRay(s, r), t);
    DotSelfNonnegative(ObjectRay(s, r).direction);
    if Discriminant(q) >= 0.0 {
      var ds := sqrt(Discriminant(q));
      QuadraticFormula(q, ds, t);
      assert Times(xs) == [Near(q, ds), Far(q, ds)];
    } else {
      NoRealRoot(q, t);
      assert Times(xs) == [];
    }
  }

  /** The first intersection is never after the second, and they coincide exactly at a tangent. */
  lemma IntersectOrdered(s: Sphere, r: Ray, sqrt: real -> real)
    requires Coefficients(s, r).a != 0.0
    requires SqrtOk(sqrt, Discriminant(Coefficients(s, r)))
    ensures var xs := Intersect(s, r, sqrt);
            |xs| == 2 ==> xs[0].t <= xs[1].t && (xs[0].t == xs[1].t <==> Discriminant(Coefficients(s, r)) == 0.0)
  {
    var q := Coefficients(s, r);
    DotSelfNonnegative(ObjectRay(s, r).direction);
    if Discriminant(q) >= 0.0 {
      RootsOrdered(q, sqrt(Discriminant(q)));
    }
  }

  /** The default sphere's coefficients are those of the ray itself. */
  lemma DefaultCoefficients(r: Ray)
    ensures Coefficients(DefaultSphere, r) == RayQuadratic(r)
  {
    TransformRayIdentity(r);
  }

  // The canonical rays of the sphere tests, against the default sphere. Each
  // is taken in three steps: the quadratic of the ray, what `Intersect`
  // returns for any sphere and ray with that quadratic, and the two put
  // together. The square root enters only through its value at the
  // discriminant, which for these rays `MathF.Sqrt` returns exactly.

  lemma QuadraticTwoPoints()
    ensures RayQuadratic(Ray(Point(0.0, 0.0, -5.0), Vector(0.0, 0.0, 1.0))) == Quadratic(1.0, -10.0, 24.0)
  {
    assert Ray(Point(0.0, 0.0, -5.0), Vector(0.0, 0.0, 1.0)) == Ray(Vector4(0.0, 0.0, -5.0, 1.0), Vector4(0.0, 0.0, 1.0, 0.0));
  }

  lemma SolvedTwoPoints(s: Sphere, r: Ray, sqrt: real -> real)
    requires Coefficients(s, r) == Quadratic(1.0, -10.0, 24.0) && sqrt(4.0) == 2.0
    ensures Intersect(s, r, sqrt) == [Intersection(s, 4.0), Intersection(s, 6.0)]
  {
  }

  /** A ray through the centre along z from z = -5 meets the sphere at t = 4 and t = 6. */
  lemma IntersectTwoPoints(r: Ray, sqrt: real -> real)
    requires r == Ray(Point(0.0, 0.0, -5.0), Vector(0.0, 0.0, 1.0)) && sqrt(4.0) == 2.0
    ensures Coefficients(DefaultSphere, r) == Quadratic(1.0, -10.0, 24.0)
    ensures Intersect(DefaultSphere, r, sqrt) == [Intersection(DefaultSphere, 4.0), Intersection(DefaultSphere, 6.0)]
  {
    DefaultCoefficients(r);
    QuadraticTwoPoints();
    SolvedTwoPoints(DefaultSphere, r, sqrt);
  }

  lemma QuadraticTangent()
    ensures RayQuadratic(Ray(Point(0.0, 1.0, -5.0), Vector(0.0, 0.0, 1.0))) == Quadratic(1.0, -10.0, 25.0)
  {
    assert Ray(Point(0.0, 1.0, -5.0), Vector(0.0, 0.0, 1.0)) == Ray(Vector4(0.0, 1.0, -5.0, 1.0), Vector4(0.0, 0.0, 1.0, 0.0));
  }

  lemma SolvedTangent(s: Sphere, r: Ray, sqrt: real -> real)
    requires Coefficients(s, r) == Quadratic(1.0, -10.0, 25.0) && sqrt(0.0) == 0.0
    ensures Intersect(s, r, sqrt) == [Intersection(s, 5.0), Intersection(s, 5.0)]
  {
  }

  /** A ray grazing the sphere at y = 1 meets it twice at t = 5. */
  lemma IntersectTangent(r: Ray, sqrt: real -> real)
    requires r == Ray(Point(0.0, 1.0, -5.0), Vector(0.0, 0.0, 1.0)) && sqrt(0.0) == 0.0
    ensures Coefficients(DefaultSphere, r) == Quadratic(1.0, -10.0, 25.0)
    ensures Intersect(DefaultSphere, r, sqrt) == [Intersection(DefaultSphere, 5.0), Intersection(DefaultSphere, 5.0)]
  {
    DefaultCoefficients(r);
    QuadraticTangent();
    SolvedTangent(DefaultSphere, r, sqrt);
  }

  lemma QuadraticMiss()
    ensures RayQuadratic(Ray(Point(0.0, 2.0, -5.0), Vector(0.0, 0.0, 1.0))) == Quadratic(1.0, -10.0, 28.0)
  {
    assert Ray(Point(0.0, 2.0, -5.0), Vector(0.0, 0.0, 1.0)) == Ray(Vector4(0.0, 2.0, -5.0, 1.0), Vector4(0.0, 0.0, 1.0, 0.0));
  }

  lemma SolvedMiss(s: Sphere, r: Ray, sqrt: real -> real)
    requires Coefficients(s, r) == Quadratic(1.0, -10.0, 28.0)
    ensures Intersect(s, r, sqrt) == []
  {
  }

  /** A ray at y = 2 misses the sphere. */
  lemma IntersectMiss(r: Ray, sqrt: real -> real)
    requires r == Ray(Point(0.0, 2.0, -5.0), Vector(0.0, 0.0, 1.0))
    ensures Coefficients(DefaultSphere, r) == Quadratic(1.0, -10.0, 28.0)
    ensures Intersect(DefaultSphere, r, sqrt) == []
  {
    DefaultCoefficients(r);
    QuadraticMiss();
    SolvedMiss(DefaultSphere, r, sqrt);
  }

  lemma QuadraticFromInside()
    ensures RayQuadratic(Ray(Point(0.0, 0.0, 0.0), Vector(0.0, 0.0, 1.0))) == Quadratic(1.0, 0.0, -1.0)
  {
    assert Ray(Point(0.0, 0.0, 0.0), Vector(0.0, 0.0, 1.0)) == Ray(Vector4(0.0, 0.0, 0.0, 1.0), Vector4(0.0, 0.0, 1.0, 0.0));
    var o := Ray(Vector4(0.0, 0.0, 0.0, 1.0), Vector4(0.0, 0.0, 1.0, 0.0));
    assert Sub(o.origin, Center) == Vector4(0.0, 0.0, 0.0, 0.0);
    assert Dot(o.direction, o.direction) == 1.0;
    assert Dot(o.direction, Vector4(0.0, 0.0, 0.0, 0.0)) == 0.0;
    assert Dot(Vector4(0.0, 0.0, 0.0, 0.0), Vector4(0.0, 0.0, 0.0, 0.0)) == 0.0;
  }

  lemma SolvedFromInside(s: Sphere, r: Ray, sqrt: real -> real)
    requires Coefficients(s, r) == Quadratic(1.0, 0.0, -1.0) && sqrt(4.0) == 2.0
    ensures Intersect(s, r, sqrt) == [Intersection(s, -1.0), Intersection(s, 1.0)]
  {
  }

  /** A ray starting at the centre meets the sphere behind it at t = -1 and ahead at t = 1. */
  lemma IntersectFromInside(r: Ray, sqrt: real -> real)
    requires r == Ray(Point(0.0, 0.0, 0.0), Vector(0.0, 0.0, 1.0)) && sqrt(4.0) == 2.0
    ensures Coefficients(DefaultSphere, r) == Quadratic(1.0, 0.0, -1.0)
    ensures Intersect(DefaultSphere, r, sqrt) == [Intersection(DefaultSphere, -1.0), Intersection(DefaultSphere, 1.0)]
  {
    DefaultCoefficients(r);
    QuadraticFromInside();
    SolvedFromInside(DefaultSphere, r, sqrt);
  }

  lemma QuadraticBehind()
    ensures RayQuadratic(Ray(Point(0.0, 0.0, 5.0), Vector(0.0, 0.0, 1.0))) == Quadratic(1.0, 10.0, 24.0)
  {
    assert Ray(Point(0.0, 0.0, 5.0), Vector(0.0, 0.0, 1.0)) == Ray(Vector4(0.0, 0.0, 5.0, 1.0), Vector4(0.0, 0.0, 1.0, 0.0));
  }

  lemma SolvedBehind(s: Sphere, r: Ray, sqrt: real -> real)
    requires Coefficients(s, r) == Quadratic(1.0, 10.0, 24.0) && sqrt(4.0) == 2.0
    ensures Intersect(s, r, sqrt) == [Intersection(s, -6.0), Intersection(s, -4.0)]
  {
  }

  /** A sphere entirely behind the ray gives t = -6 and t = -4. */
  lemma IntersectBehind(r: Ray, sqrt: real -> real)
    requires r == Ray(Point(0.0, 0.0, 5.0), Vector(0.0, 0.0, 1.0)) && sqrt(4.0) == 2.0
    ensures Coefficients(DefaultSphere, r) == Quadratic(1.0, 10.0, 24.0)
    ensures Intersect(DefaultSphere, r, sqrt) == [Intersection(DefaultSphere, -6.0), Intersection(DefaultSphere, -4.0)]
  {
    DefaultCoefficients(r);
    QuadraticBehind();
    SolvedBehind(DefaultSphere, r, sqrt);
  }

  /** `NormalAt` is a unit vector pointing the way of the world normal. */
  lemma NormalAtUnit(s: Sphere, p: Vector4, sqrt: real -> real)
    requires Dot(WorldNormal(s, p), WorldNormal(s, p)) != 0.0
    requires SqrtOk(sqrt, Dot(WorldNormal(s, p), WorldNormal(s, p)))
    ensures Dot(NormalAt(s, p, sqrt), NormalAt(s, p, sqrt)) == 1.0
    ensures var len := sqrt(Dot(WorldNormal(s, p), WorldNormal(s, p)));
            len > 0.0 && Scale(NormalAt(s, p, sqrt), len) == WorldNormal(s, p)
  {
    NormalizeUnit(WorldNormal(s, p), sqrt);
    NormalizeRescale(WorldNormal(s, p), sqrt);
  }

  /** On the untransformed unit sphere the normal at a point is the vector from the centre to it. */
  lemma NormalAtDefault(p: Vector4, sqrt: real -> real)
    requires IsPoint(p) && p.x * p.x + p.y * p.y + p.z * p.z == 1.0
    requires sqrt(1.0) == 1.0
    ensures WorldNormal(DefaultSphere, p) == Vector(p.x, p.y, p.z)
    ensures Dot(WorldNormal(DefaultSphere, p), WorldNormal(DefaultSphere, p)) == 1.0
    ensures NormalAt(DefaultSphere, p, sqrt) == Vector(p.x, p.y, p.z)
  {
    TransformIdentity(p);
    assert Transpose(Identity) == Identity;
    TransformIdentity(Sub(p, Center));
    SqrtExact(sqrt, 1.0, 1.0);
  }

  /** (s + d·t)·(s + d·t) summed over the four components, as a polynomial in t. */
  lemma ExpandSquares(p1: real, p2: real, p3: real, p4: real, s1: real, s2: real, s3: real, s4: real,
                      d1: real, d2: real, d3: real, d4: real, t: real, pp: real, dd: real, ds: real, ss: real)
    requires pp == p1 * p1 + p2 * p2 + p3 * p3 + p4 * p4
    requires p1 == s1 + d1 * t && p2 == s2 + d2 * t && p3 == s3 + d3 * t && p4 == s4 + d4 * t
    requires dd == d1 * d1 + d2 * d2 + d3 * d3 + d4 * d4
    requires ds == d1 * s1 + d2 * s2 + d3 * s3 + d4 * s4
    requires ss == s1 * s1 + s2 * s2 + s3 * s3 + s4 * s4
    ensures pp == dd * t * t + 2.0 * ds * t + ss
  {
    var tt := t * t;
    SquareExpand(p1, s1, d1, t, tt);
    SquareExpand(p2, s2, d2, t, tt);
    SquareExpand(p3, s3, d3, t, tt);
    SquareExpand(p4, s4, d4, t, tt);
    Distribute(dd, d1 * d1, d2 * d2, d3 * d3, d4 * d4, tt);
    Distribute(ds, d1 * s1, d2 * s2, d3 * s3, d4 * s4, 2.0 * t);
    assert dd * t * t == dd * tt;
    assert 2.0 * ds * t == ds * (2.0 * t);
  }

  lemma SquareExpand(p: real, s: real, d: real, t: real, tt: real)
    requires p == s + d * t && tt == t * t
    ensures p * p == d * d * tt + d * s * (2.0 * t) + s * s
  {
  }

  lemma Distribute(a: real, x1: real, x2: real, x3: real, x4: real, k: real)
    requires a == x1 + x2 + x3 + x4
    ensures a * k == x1 * k + x2 * k + x3 * k + x4 * k
  {
  }
}
