/**
 * Points and vectors as Vector4 tuples (Primitives.cs) and the classification
 * and reflection helpers on them (Vector4Extensions.cs).
 */
module Primitives {
  import opened Numerics

  /** `Primitives.Point`: a tuple with w = 1. */
  function Point(x: real, y: real, z: real): (p: Vector4)
    ensures p.x == x && p.y == y && p.z == z
    ensures IsPoint(p) && !IsVector(p)
  {
    Vector4(x, y, z, 1.0)
  }

  /** `Primitives.Vector`: a tuple with w = 0. */
  function Vector(x: real, y: real, z: real): (v: Vector4)
    ensures v.x == x && v.y == y && v.z == z
    ensures IsVector(v) && !IsPoint(v)
  {
    Vector4(x, y, z, 0.0)
  }

  /**
   * `IsPoint`: the source asks for |w - 1| < `float.Epsilon`. Distinct floats
   * lie at least `float.Epsilon` apart, so on float operands that test is
   * exact equality, which is what the model states.
   */
  predicate IsPoint(t: Vector4) {
    t.w == 1.0
  }

  /** `IsVector`: |w| < `float.Epsilon`, exact equality with 0 for the same reason. */
  predicate IsVector(t: Vector4) {
    t.w == 0.0
  }

  /** `Reflect`: `vector - normal * 2 * Dot(vector, normal)`. */
  function Reflect(v: Vector4, n: Vector4): (r: Vector4)
    ensures Dot(v, n) == 0.0 ==> r == v
    ensures v.w == 0.0 && n.w == 0.0 ==> r.w == 0.0
    ensures Dot(n, n) == 1.0 ==> Dot(r, n) == -Dot(v, n)
  {
    Sub(v, Scale(Scale(n, 2.0), Dot(v, n)))
  }

  // ------------------------------------------------------------------ facts

  /** No tuple is both a point and a vector. */
  lemma NeverPointAndVector(t: Vector4)
    ensures !(IsPoint(t) && IsVector(t))
  {
  }

  /** How w behaves under tuple arithmetic on constructed points and vectors. */
  lemma PointVectorArithmetic(x1: real, y1: real, z1: real, x2: real, y2: real, z2: real)
    ensures Add(Point(x1, y1, z1), Vector(x2, y2, z2)) == Point(x1 + x2, y1 + y2, z1 + z2)
    ensures Sub(Point(x1, y1, z1), Point(x2, y2, z2)) == Vector(x1 - x2, y1 - y2, z1 - z2)
    ensures Sub(Point(x1, y1, z1), Vector(x2, y2, z2)) == Point(x1 - x2, y1 - y2, z1 - z2)
    ensures Sub(Vector(x1, y1, z1), Vector(x2, y2, z2)) == Vector(x1 - x2, y1 - y2, z1 - z2)
    ensures Sub(Zero4, Vector(x2, y2, z2)) == Vector(-x2, -y2, -z2)
  {
  }

  /** Reflecting twice about a unit normal gives the vector back. */
  lemma ReflectTwice(v: Vector4, n: Vector4)
    requires Dot(n, n) == 1.0
    ensures Reflect(Reflect(v, n), n) == v
  {
    var r := Reflect(v, n);
    var d := Dot(v, n);
    assert Dot(r, n) == -d;
    var u := Scale(Scale(n, 2.0), d);
    assert r == Sub(v, u);
    assert Reflect(r, n) == Sub(r, Scale(Scale(n, 2.0), -d));
    assert Scale(Scale(n, 2.0), -d) == Neg(u);
    SubAddBack(v, u);
  }

  /** (v − u) − (−u) = v. */
  lemma SubAddBack(v: Vector4, u: Vector4)
    ensures Sub(Sub(v, u), Neg(u)) == v
  {
  }

  /** Reflection about a unit normal keeps the squared length. */
  lemma ReflectKeepsLength(v: Vector4, n: Vector4)
    requires Dot(n, n) == 1.0
    ensures Dot(Reflect(v, n), Reflect(v, n)) == Dot(v, v)
  {
    var d := Dot(v, n);
    var r := Reflect(v, n);
    assert r == Sub(v, Scale(n, 2.0 * d));
    calc {
      Dot(r, r);
      Dot(v, v) - 4.0 * d * Dot(v, n) + 4.0 * d * d * Dot(n, n);
      Dot(v, v);
    }
  }
}
