/**
 * The quadratic a·t² + b·t + c that `Sphere.Intersect` solves, and the
 * facts about its roots that the intersection relies on. The discriminant's
 * square root `ds` is a parameter: any ds >= 0 with ds² equal to the
 * discriminant.
 */
module Quadratics {
  import opened Numerics

  datatype Quadratic = Quadratic(a: real, b: real, c: real)

  /** `MathF.Pow(b, 2) - 4 * a * c` */
  function Discriminant(q: Quadratic): real {
    q.b * q.b - 4.0 * q.a * q.c
  }

  predicate IsRoot(q: Quadratic, t: real) {
    q.a * t * t + q.b * t + q.c == 0.0
  }

  /** The smaller and the larger root, `(-b ∓ ds) / (2a)`. */
  function Near(q: Quadratic, ds: real): real
    requires q.a != 0.0
  {
    (-q.b - ds) / (2.0 * q.a)
  }

  function Far(q: Quadratic, ds: real): real
    requires q.a != 0.0
  {
    (-q.b + ds) / (2.0 * q.a)
  }

  // ------------------------------------------------------------------ facts

  /**
   * With a > 0 and ds the square root of a non-negative discriminant, the
   * roots are exactly `Near` and `Far`.
   */
  lemma QuadraticFormula(q: Quadratic, ds: real, t: real)
    requires q.a > 0.0 && ds >= 0.0 && ds * ds == Discriminant(q)
    ensures IsRoot(q, t) <==> t == Near(q, ds) || t == Far(q, ds)
  {
    var u, f := 2.0 * q.a * t + q.b, q.a * t * t + q.b * t + q.c;
    CompleteSquare(q.a, q.b, q.c, t, u, f);
    RootIff(q.a, f, u, ds);
    SolveLinear(q.a, q.b, t, u, ds);
  }

  /** With a negative discriminant there is no real root. */
  lemma NoRealRoot(q: Quadratic, t: real)
    requires q.a > 0.0 && Discriminant(q) < 0.0
    ensures !IsRoot(q, t)
  {
    var u, f := 2.0 * q.a * t + q.b, q.a * t * t + q.b * t + q.c;
    CompleteSquare(q.a, q.b, q.c, t, u, f);
    SquareNonnegative(u);
    ZeroProduct(4.0 * q.a, f);
  }

  /** `Near` <= `Far`, with equality exactly when the discriminant is zero (a tangent). */
  lemma RootsOrdered(q: Quadratic, ds: real)
    requires q.a > 0.0 && ds >= 0.0 && ds * ds == Discriminant(q)
    ensures Near(q, ds) <= Far(q, ds)
    ensures Near(q, ds) == Far(q, ds) <==> Discriminant(q) == 0.0
  {
    var d := 2.0 * q.a;
    DivideOrdered(-q.b - ds, -q.b + ds, d);
    ZeroProduct(ds, ds);
  }

  /** 4a·(at² + bt + c) = (2at + b)² − (b² − 4ac). */
  lemma CompleteSquare(a: real, b: real, c: real, t: real, u: real, f: real)
    requires u == 2.0 * a * t + b && f == a * t * t + b * t + c
    ensures 4.0 * a * f == u * u - (b * b - 4.0 * a * c)
  {
  }

  lemma RootIff(a: real, f: real, u: real, ds: real)
    requires a > 0.0 && 4.0 * a * f == u * u - ds * ds
    ensures f == 0.0 <==> u == ds || u == -ds
  {
    assert u * u - ds * ds == (u - ds) * (u + ds);
    ZeroProduct(4.0 * a, f);
    ZeroProduct(u - ds, u + ds);
  }

  lemma SolveLinear(a: real, b: real, t: real, u: real, ds: real)
    requires a > 0.0 && u == 2.0 * a * t + b
    ensures u == ds <==> t == (-b + ds) / (2.0 * a)
    ensures u == -ds <==> t == (-b - ds) / (2.0 * a)
  {
  }

  lemma DivideOrdered(x: real, y: real, d: real)
    requires d > 0.0 && x <= y
    ensures x / d <= y / d
    ensures x / d == y / d <==> x == y
  {
  }

  lemma ZeroProduct(p: real, q: real)
    ensures p * q == 0.0 <==> p == 0.0 || q == 0.0
  {
    if p > 0.0 && q > 0.0 {
      assert p * q > 0.0;
    } else if p > 0.0 && q < 0.0 {
      assert p * q < 0.0;
    } else if p < 0.0 && q > 0.0 {
      assert p * q < 0.0;
    } else if p < 0.0 && q < 0.0 {
      assert p * q > 0.0;
    }
  }
}
