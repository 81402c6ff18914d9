/**
 * `World` (World.cs): a list of scene objects and an optional light, and
 * `World.Intersect`, which gathers every object's intersections with the
 * ray in object order and sorts them stably by t. The scene-object
 * interface does not itself declare `Intersect`; the objects the world
 * holds are spheres here.
 */
module Worlds {
  import opened Wrappers
  import opened Numerics
  import opened Primitives
  import opened Rays
  import opened Materials
  import opened Quadratics
  import opened Spheres
  import opened Ordering

  datatype World = World(objects: seq<Sphere>, lightSource: Option<PointLight>)

  /** `new World()`: no objects, no light. */
  const NewWorld: World := World([], None)

  /** Every object sees the ray with a non-zero object-space direction, as `Sphere.Intersect` needs. */
  predicate CanIntersect(objects: seq<Sphere>, r: Ray) {
    forall i :: 0 <= i < |objects| ==> Coefficients(objects[i], r).a != 0.0
  }

  /**
   * `SelectMany(o => o.Intersect(worldRay))`: each object's list, in object
   * order. Each object contributes none or two intersections, so the count
   * is even and at most twice the number of objects.
   */
  function Gather(objects: seq<Sphere>, r: Ray, sqrt: real -> real): (xs: seq<Intersection>)
    requires CanIntersect(objects, r)
    ensures |xs| % 2 == 0
    ensures |xs| <= 2 * |objects|
    decreases |objects|
  {
    if |objects| == 0 then []
    else Spheres.Intersect(objects[0], r, sqrt) + Gather(objects[1..], r, sqrt)
  }

  /** `World.Intersect`: the gathered intersections, ordered stably by t. */
  function Intersect(w: World, r: Ray, sqrt: real -> real): (xs: seq<Intersection>)
    requires CanIntersect(w.objects, r)
    ensures Sorted(xs)
    ensures multiset(xs) == multiset(Gather(w.objects, r, sqrt))
  {
    SortSpec(Gather(w.objects, r, sqrt));
    Sort(Gather(w.objects, r, sqrt))
  }

  // ------------------------------------------------------------------ facts

  /** A new world has no objects and no light, and yields nothing for any ray. */
  lemma NewWorldEmpty(r: Ray, sqrt: real -> real)
    ensures NewWorld.objects == [] && NewWorld.lightSource == None
    ensures Intersect(NewWorld, r, sqrt) == []
  {
  }

  /** Gathering over two runs of objects is gathering over each, one after the other. */
  lemma {:induction false} GatherAppend(a: seq<Sphere>, b: seq<Sphere>, r: Ray, sqrt: real -> real)
    requires CanIntersect(a, r) && CanIntersect(b, r)
    ensures CanIntersect(a + b, r)
    ensures Gather(a + b, r, sqrt) == Gather(a, r, sqrt) + Gather(b, r, sqrt)
    decreases |a|
  {
    if |a| > 0 {
      assert (a + b)[1..] == a[1..] + b;
      GatherAppend(a[1..], b, r, sqrt);
    } else {
      assert a + b == b;
    }
  }

  /** An entry of the gathered list is exactly an entry of some object's own list. */
  lemma {:induction false} GatherMembers(objects: seq<Sphere>, r: Ray, sqrt: real -> real, e: Intersection)
    requires CanIntersect(objects, r)
    ensures e in Gather(objects, r, sqrt) <==> exists i :: 0 <= i < |objects| && e in Spheres.Intersect(objects[i], r, sqrt)
    decreases |objects|
  {
    if |objects| > 0 {
      GatherMembers(objects[1..], r, sqrt, e);
      if exists i :: 0 <= i < |objects| && e in Spheres.Intersect(objects[i], r, sqrt) {
        var i :| 0 <= i < |objects| && e in Spheres.Intersect(objects[i], r, sqrt);
        if i > 0 {
          assert objects[i] == objects[1..][i - 1];
        }
      }
      if exists i :: 0 <= i < |objects[1..]| && e in Spheres.Intersect(objects[1..][i], r, sqrt) {
        var i :| 0 <= i < |objects[1..]| && e in Spheres.Intersect(objects[1..][i], r, sqrt);
        assert objects[i + 1] == objects[1..][i];
      }
    }
  }

  /**
   * The world's list holds what every object's list holds, and no more;
   * its length is the sum of theirs.
   */
  lemma IntersectContents(w: World, r: Ray, sqrt: real -> real, e: Intersection)
    requires CanIntersect(w.objects, r)
    ensures e in Intersect(w, r, sqrt) <==> exists i :: 0 <= i < |w.objects| && e in Spheres.Intersect(w.objects[i], r, sqrt)
    ensures |Intersect(w, r, sqrt)| == |Gather(w.objects, r, sqrt)|
  {
    GatherMembers(w.objects, r, sqrt, e);
    SortLength(Gather(w.objects, r, sqrt));
    assert e in Intersect(w, r, sqrt) <==> e in multiset(Gather(w.objects, r, sqrt));
  }

  /** Entries with equal t keep the order they had across the objects (the sort is stable). */
  lemma IntersectStable(w: World, r: Ray, sqrt: real -> real, k: real)
    requires CanIntersect(w.objects, r)
    ensures WithT(Intersect(w, r, sqrt), k) == WithT(Gather(w.objects, r, sqrt), k)
  {
    SortStable(Gather(w.objects, r, sqrt), k);
  }

  /** The world's list is the one sorted, stable arrangement of the gathered intersections. */
  lemma IntersectCharacterised(w: World, r: Ray, sqrt: real -> real, ys: seq<Intersection>)
    requires CanIntersect(w.objects, r)
    requires Sorted(ys) && forall k :: WithT(ys, k) == WithT(Gather(w.objects, r, sqrt), k)
    ensures ys == Intersect(w, r, sqrt)
  {
    SortCharacterised(Gather(w.objects, r, sqrt), ys);
  }

  // The default world of the world tests: a unit sphere with its own
  // material and, inside it, one scaled by 0.5, lit from (-10, 10, -10).

  const OuterMaterial: Material := Default.(color := Vector3(0.8, 1.0, 0.6), diffuse := 0.7, specular := 0.2)

  const Outer: Sphere := DefaultSphere.(material := OuterMaterial)

  /** The scaled sphere, with the inverse `Matrix4x4.Invert` finds for a 0.5 scale. */
  const Inner: Sphere := Sphere(CreateScale(0.5, 0.5, 0.5), CreateScale(2.0, 2.0, 2.0), Default)

  const DefaultWorld: World := World([Outer, Inner], Some(PointLight(Point(-10.0, 10.0, -10.0), Vector3(1.0, 1.0, 1.0))))

  /** Each sphere of the default world keeps a true inverse. */
  lemma OuterValid()
    ensures Valid(Outer)
  {
    assert Outer.transform == DefaultSphere.transform && Outer.transformInverse == DefaultSphere.transformInverse;
    DefaultValid();
  }

  lemma InnerValid()
    ensures Valid(Inner)
  {
    CreateScaleInverse(0.5, 0.5, 0.5, 2.0, 2.0, 2.0);
  }

  lemma OuterCoefficients(r: Ray)
    requires r == Ray(Point(0.0, 0.0, -5.0), Vector(0.0, 0.0, 1.0))
    ensures Coefficients(Outer, r) == Quadratic(1.0, -10.0, 24.0)
  {
    assert ObjectRay(Outer, r) == ObjectRay(DefaultSphere, r);
    DefaultCoefficients(r);
    QuadraticTwoPoints();
  }

  lemma InnerObjectRay(r: Ray)
    requires r == Ray(Point(0.0, 0.0, -5.0), Vector(0.0, 0.0, 1.0))
    ensures ObjectRay(Inner, r) == Ray(Vector4(0.0, 0.0, -10.0, 1.0), Vector4(0.0, 0.0, 2.0, 0.0))
  {
    assert r == Ray(Vector4(0.0, 0.0, -5.0, 1.0), Vector4(0.0, 0.0, 1.0, 0.0));
  }

  lemma QuadraticInner()
    ensures RayQuadratic(Ray(Vector4(0.0, 0.0, -10.0, 1.0), Vector4(0.0, 0.0, 2.0, 0.0))) == Quadratic(4.0, -40.0, 99.0)
  {
  }

  lemma InnerCoefficients(r: Ray)
    requires r == Ray(Point(0.0, 0.0, -5.0), Vector(0.0, 0.0, 1.0))
    ensures Coefficients(Inner, r) == Quadratic(4.0, -40.0, 99.0)
  {
    InnerObjectRay(r);
    QuadraticInner();
  }

  lemma SolvedInner(s: Sphere, r: Ray, sqrt: real -> real)
    requires Coefficients(s, r) == Quadratic(4.0, -40.0, 99.0) && sqrt(16.0) == 4.0
    ensures Spheres.Intersect(s, r, sqrt) == [Intersection(s, 4.5), Intersection(s, 5.5)]
  {
  }

  /** Gathering over two objects is the first one's list followed by the second's. */
  lemma GatherPair(a: Sphere, b: Sphere, r: Ray, sqrt: real -> real)
    requires Coefficients(a, r).a != 0.0 && Coefficients(b, r).a != 0.0
    ensures CanIntersect([a, b], r)
    ensures Gather([a, b], r, sqrt) == Spheres.Intersect(a, r, sqrt) + Spheres.Intersect(b, r, sqrt)
  {
    assert [a, b][1..] == [b];
    assert [b][1..] == [];
    assert Gather([b], r, sqrt) == Spheres.Intersect(b, r, sqrt) + [];
    assert Spheres.Intersect(b, r, sqrt) + [] == Spheres.Intersect(b, r, sqrt);
  }

  /** Two spheres with the default world's two quadratics gather to t = 4, 6 and then 4.5, 5.5. */
  lemma GatherSolved(a: Sphere, b: Sphere, r: Ray, sqrt: real -> real)
    requires Coefficients(a, r) == Quadratic(1.0, -10.0, 24.0) && Coefficients(b, r) == Quadratic(4.0, -40.0, 99.0)
    requires sqrt(4.0) == 2.0 && sqrt(16.0) == 4.0
    ensures CanIntersect([a, b], r)
    ensures Gather([a, b], r, sqrt) == [Intersection(a, 4.0), Intersection(a, 6.0), Intersection(b, 4.5), Intersection(b, 5.5)]
  {
    SolvedTwoPoints(a, r, sqrt);
    SolvedInner(b, r, sqrt);
    GatherPair(a, b, r, sqrt);
  }

  /** Sorting the gathered list interleaves the second sphere's two entries between the first's. */
  lemma SortInterleaves(a: Intersection, b: Intersection, c: Intersection, d: Intersection)
    requires a.t <= c.t <= d.t < b.t
    ensures Sort([a, b, c, d]) == [a, c, d, b]
  {
    SortMovesBack(b, c, d);
    SortCons(a, [b, c, d]);
    assert [a] + [b, c, d] == [a, b, c, d];
    assert Insert(a, [c, d, b]) == [a] + [c, d, b];
    assert [a] + [c, d, b] == [a, c, d, b];
  }

  /** The first sphere's far entry moves behind both of the second sphere's entries. */
  lemma SortMovesBack(b: Intersection, c: Intersection, d: Intersection)
    requires c.t <= d.t < b.t
    ensures Sort([b, c, d]) == [c, d, b]
  {
    SortCons(d, []);
    SortCons(c, [d]);
    assert [c] + [d] == [c, d];
    SortCons(b, [c, d]);
    assert [b] + [c, d] == [b, c, d];
    assert [c, d][1..] == [d];
    assert Insert(b, [c, d]) == [c] + Insert(b, [d]);
    assert Insert(b, [d]) == [d] + Insert(b, []);
  }

  /** The ray from (0, 0, -5) along +z meets the default world at t = 4, 4.5, 5.5 and 6. */
  lemma IntersectDefaultWorld(r: Ray, sqrt: real -> real)
    requires r == Ray(Point(0.0, 0.0, -5.0), Vector(0.0, 0.0, 1.0)) && sqrt(4.0) == 2.0 && sqrt(16.0) == 4.0
    ensures CanIntersect(DefaultWorld.objects, r)
    ensures Intersect(DefaultWorld, r, sqrt)
         == [Intersection(Outer, 4.0), Intersection(Inner, 4.5), Intersection(Inner, 5.5), Intersection(Outer, 6.0)]
  {
    OuterCoefficients(r);
    InnerCoefficients(r);
    GatherSolved(Outer, Inner, r, sqrt);
    SortInterleaves(Intersection(Outer, 4.0), Intersection(Outer, 6.0), Intersection(Inner, 4.5), Intersection(Inner, 5.5));
  }
}
