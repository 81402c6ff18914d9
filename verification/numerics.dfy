/**
 * The part of System.Numerics the ray tracer relies on, over exact reals:
 * Vector4 (points and vectors in homogeneous coordinates), Vector3 (colours
 * and the projectile's 3-D quantities) and Matrix4x4 with the row-vector
 * convention of that library, in which `Vector4.Transform(v, M)` is `v·M`.
 */
module Numerics {

  datatype Vector4 = Vector4(x: real, y: real, z: real, w: real)

  datatype Vector3 = Vector3(x: real, y: real, z: real)

  const Zero4: Vector4 := Vector4(0.0, 0.0, 0.0, 0.0)

  // ---------------------------------------------------------------- Vector4

  function Add(a: Vector4, b: Vector4): Vector4 {
    Vector4(a.x + b.x, a.y + b.y, a.z + b.z, a.w + b.w)
  }

  function Sub(a: Vector4, b: Vector4): Vector4 {
    Vector4(a.x - b.x, a.y - b.y, a.z - b.z, a.w - b.w)
  }

  function Neg(a: Vector4): Vector4 {
    Vector4(-a.x, -a.y, -a.z, -a.w)
  }

  /** `a * k` */
  function Scale(a: Vector4, k: real): Vector4 {
    Vector4(a.x * k, a.y * k, a.z * k, a.w * k)
  }

  /** `Vector4.Dot`: all four components take part, w included. */
  function Dot(a: Vector4, b: Vector4): real {
    a.x * b.x + a.y * b.y + a.z * b.z + a.w * b.w
  }

  // ---------------------------------------------------------------- Vector3

  function Add3(a: Vector3, b: Vector3): Vector3 {
    Vector3(a.x + b.x, a.y + b.y, a.z + b.z)
  }

  /** Componentwise (Hadamard) product, `a * b` on two Vector3 values. */
  function Mul3(a: Vector3, b: Vector3): Vector3 {
    Vector3(a.x * b.x, a.y * b.y, a.z * b.z)
  }

  function Scale3(a: Vector3, k: real): Vector3 {
    Vector3(a.x * k, a.y * k, a.z * k)
  }

  /**
   * `Vector4.Normalize`: the tuple divided by its length, the square root of
   * its dot product with itself (over the reals, a scaling by 1 / length).
   */
  function Normalize(v: Vector4, sqrt: real -> real): (u: Vector4)
    requires Dot(v, v) != 0.0 && SqrtOk(sqrt, Dot(v, v))
    ensures v.w == 0.0 ==> u.w == 0.0
  {
    DotSelfNonnegative(v);
    var len := sqrt(Dot(v, v));
    assert len != 0.0;
    Scale(v, 1.0 / len)
  }

  // -------------------------------------------------------------- Matrix4x4

  /**
   * System.Numerics' 4x4 matrix: sixteen fields, `mIJ` in row I, column J,
   * in the order of its constructor.
   */
  datatype Matrix4x4 = Matrix4x4(
    m11: real, m12: real, m13: real, m14: real,
    m21: real, m22: real, m23: real, m24: real,
    m31: real, m32: real, m33: real, m34: real,
    m41: real, m42: real, m43: real, m44: real)

  const Identity: Matrix4x4 :=
    Matrix4x4(1.0, 0.0, 0.0, 0.0,
              0.0, 1.0, 0.0, 0.0,
              0.0, 0.0, 1.0, 0.0,
              0.0, 0.0, 0.0, 1.0)

  /** `Matrix4x4.CreateScale(x, y, z)`: the diagonal (x, y, z, 1). */
  function CreateScale(x: real, y: real, z: real): Matrix4x4 {
    Matrix4x4(x, 0.0, 0.0, 0.0,
              0.0, y, 0.0, 0.0,
              0.0, 0.0, z, 0.0,
              0.0, 0.0, 0.0, 1.0)
  }

  /** `Matrix4x4.Multiply(a, b)`: the ordinary product `a·b`. */
  function Multiply(a: Matrix4x4, b: Matrix4x4): Matrix4x4 {
    Matrix4x4(
      a.m11 * b.m11 + a.m12 * b.m21 + a.m13 * b.m31 + a.m14 * b.m41,
      a.m11 * b.m12 + a.m12 * b.m22 + a.m13 * b.m32 + a.m14 * b.m42,
      a.m11 * b.m13 + a.m12 * b.m23 + a.m13 * b.m33 + a.m14 * b.m43,
      a.m11 * b.m14 + a.m12 * b.m24 + a.m13 * b.m34 + a.m14 * b.m44,
      a.m21 * b.m11 + a.m22 * b.m21 + a.m23 * b.m31 + a.m24 * b.m41,
      a.m21 * b.m12 + a.m22 * b.m22 + a.m23 * b.m32 + a.m24 * b.m42,
      a.m21 * b.m13 + a.m22 * b.m23 + a.m23 * b.m33 + a.m24 * b.m43,
      a.m21 * b.m14 + a.m22 * b.m24 + a.m23 * b.m34 + a.m24 * b.m44,
      a.m31 * b.m11 + a.m32 * b.m21 + a.m33 * b.m31 + a.m34 * b.m41,
      a.m31 * b.m12 + a.m32 * b.m22 + a.m33 * b.m32 + a.m34 * b.m42,
      a.m31 * b.m13 + a.m32 * b.m23 + a.m33 * b.m33 + a.m34 * b.m43,
      a.m31 * b.m14 + a.m32 * b.m24 + a.m33 * b.m34 + a.m34 * b.m44,
      a.m41 * b.m11 + a.m42 * b.m21 + a.m43 * b.m31 + a.m44 * b.m41,
      a.m41 * b.m12 + a.m42 * b.m22 + a.m43 * b.m32 + a.m44 * b.m42,
      a.m41 * b.m13 + a.m42 * b.m23 + a.m43 * b.m33 + a.m44 * b.m43,
      a.m41 * b.m14 + a.m42 * b.m24 + a.m43 * b.m34 + a.m44 * b.m44)
  }

  function Transpose(m: Matrix4x4): Matrix4x4 {
    Matrix4x4(m.m11, m.m21, m.m31, m.m41,
              m.m12, m.m22, m.m32, m.m42,
              m.m13, m.m23, m.m33, m.m43,
              m.m14, m.m24, m.m34, m.m44)
  }

  /** `Vector4.Transform(v, m)`: the row vector `v` times `m`. */
  function Transform(v: Vector4, m: Matrix4x4): Vector4 {
    Vector4(v.x * m.m11 + v.y * m.m21 + v.z * m.m31 + v.w * m.m41,
            v.x * m.m12 + v.y * m.m22 + v.z * m.m32 + v.w * m.m42,
            v.x * m.m13 + v.y * m.m23 + v.z * m.m33 + v.w * m.m43,
            v.x * m.m14 + v.y * m.m24 + v.z * m.m34 + v.w * m.m44)
  }

  /** The column-vector product `m·v`, the convention of the ray tracer book. */
  function Apply(m: Matrix4x4, v: Vector4): Vector4 {
    Vector4(m.m11 * v.x + m.m12 * v.y + m.m13 * v.z + m.m14 * v.w,
            m.m21 * v.x + m.m22 * v.y + m.m23 * v.z + m.m24 * v.w,
            m.m31 * v.x + m.m32 * v.y + m.m33 * v.z + m.m34 * v.w,
            m.m41 * v.x + m.m42 * v.y + m.m43 * v.z + m.m44 * v.w)
  }

  /**
   * `sqrt` behaves as `MathF.Sqrt` at `x`: for x >= 0, the non-negative root.
   * Operations that take a square root take the function as a parameter and
   * ask this only at the values they use.
   */
  predicate SqrtOk(sqrt: real -> real, x: real) {
    x >= 0.0 ==> sqrt(x) >= 0.0 && sqrt(x) * sqrt(x) == x
  }

  /** `inv` is a right inverse of `m`, as `Matrix4x4.Invert` returns for an invertible `m`. */
  predicate IsInverse(m: Matrix4x4, inv: Matrix4x4) {
    Multiply(m, inv) == Identity
  }

  // ------------------------------------------------------------------ facts

  /** A root that `SqrtOk` vouches for is the unique non-negative one. */
  lemma SqrtExact(sqrt: real -> real, x: real, k: real)
    requires SqrtOk(sqrt, x) && x == k * k && k >= 0.0
    ensures sqrt(x) == k
  {
    var s := sqrt(x);
    assert s >= 0.0 && s * s == k * k;
    if s < k {
      SquareMonotone(s, k);
    } else if k < s {
      SquareMonotone(k, s);
    }
  }

  /** A squared length is never negative. */
  lemma DotSelfNonnegative(v: Vector4)
    ensures Dot(v, v) >= 0.0
  {
    SquareNonnegative(v.x);
    SquareNonnegative(v.y);
    SquareNonnegative(v.z);
    SquareNonnegative(v.w);
  }

  /** `Normalize` gives a tuple of length one. */
  lemma NormalizeUnit(v: Vector4, sqrt: real -> real)
    requires Dot(v, v) != 0.0 && SqrtOk(sqrt, Dot(v, v))
    ensures Dot(Normalize(v, sqrt), Normalize(v, sqrt)) == 1.0
  {
    DotSelfNonnegative(v);
    var len := sqrt(Dot(v, v));
    var k := 1.0 / len;
    ScaleSquares(v.x, v.y, v.z, v.w, k);
    InverseSquare(Dot(v, v), len, k);
  }

  /** Scaling the normalised tuple back by the length gives the original: the direction is kept. */
  lemma NormalizeRescale(v: Vector4, sqrt: real -> real)
    requires Dot(v, v) != 0.0 && SqrtOk(sqrt, Dot(v, v))
    ensures sqrt(Dot(v, v)) > 0.0
    ensures Scale(Normalize(v, sqrt), sqrt(Dot(v, v))) == v
  {
    DotSelfNonnegative(v);
    var len := sqrt(Dot(v, v));
    var k := 1.0 / len;
    assert k * len == 1.0;
    Rescale(v.x, k, len);
    Rescale(v.y, k, len);
    Rescale(v.z, k, len);
    Rescale(v.w, k, len);
  }

  lemma Rescale(a: real, k: real, len: real)
    requires k * len == 1.0
    ensures a * k * len == a
  {
    assert a * k * len == a * (k * len);
  }

  lemma ScaleSquares(v1: real, v2: real, v3: real, v4: real, k: real)
    ensures (v1 * k) * (v1 * k) + (v2 * k) * (v2 * k) + (v3 * k) * (v3 * k) + (v4 * k) * (v4 * k)
         == (v1 * v1 + v2 * v2 + v3 * v3 + v4 * v4) * (k * k)
  {
  }

  /** d = len², so d / len² = 1. */
  lemma InverseSquare(d: real, len: real, k: real)
    requires len != 0.0 && d == len * len && k == 1.0 / len
    ensures d * (k * k) == 1.0
  {
    assert len * k == 1.0;
    assert d * (k * k) == (len * k) * (len * k);
  }

  /** Squaring is strictly increasing on the non-negative reals. */
  lemma SquareMonotone(a: real, b: real)
    requires 0.0 <= a < b
    ensures a * a < b * b
  {
    assert a * (b - a) >= 0.0;
    assert b * (b - a) > 0.0;
  }

  lemma SquareNonnegative(x: real)
    ensures x * x >= 0.0
  {
    if x < 0.0 {
      assert x * x == (-x) * (-x);
    }
  }

  lemma TransformIdentity(v: Vector4)
    ensures Transform(v, Identity) == v
  {
  }

  /** Transforming by a product is transforming by each factor in turn. */
  lemma TransformMultiply(v: Vector4, a: Matrix4x4, b: Matrix4x4)
    ensures Transform(v, Multiply(a, b)) == Transform(Transform(v, a), b)
  {
    TransformMultiplyX(v, a, b);
    TransformMultiplyY(v, a, b);
    TransformMultiplyZ(v, a, b);
    TransformMultiplyW(v, a, b);
  }

  lemma TransformMultiplyX(v: Vector4, a: Matrix4x4, b: Matrix4x4)
    ensures Transform(v, Multiply(a, b)).x == Transform(Transform(v, a), b).x
  {
    var p, t := Multiply(a, b), Transform(v, a);
    Regroup(v.x, v.y, v.z, v.w, p.m11, p.m21, p.m31, p.m41, t.x, t.y, t.z, t.w, a, b.m11, b.m21, b.m31, b.m41);
  }

  lemma TransformMultiplyY(v: Vector4, a: Matrix4x4, b: Matrix4x4)
    ensures Transform(v, Multiply(a, b)).y == Transform(Transform(v, a), b).y
  {
    var p, t := Multiply(a, b), Transform(v, a);
    Regroup(v.x, v.y, v.z, v.w, p.m12, p.m22, p.m32, p.m42, t.x, t.y, t.z, t.w, a, b.m12, b.m22, b.m32, b.m42);
  }

  lemma TransformMultiplyZ(v: Vector4, a: Matrix4x4, b: Matrix4x4)
    ensures Transform(v, Multiply(a, b)).z == Transform(Transform(v, a), b).z
  {
    var p, t := Multiply(a, b), Transform(v, a);
    Regroup(v.x, v.y, v.z, v.w, p.m13, p.m23, p.m33, p.m43, t.x, t.y, t.z, t.w, a, b.m13, b.m23, b.m33, b.m43);
  }

  lemma TransformMultiplyW(v: Vector4, a: Matrix4x4, b: Matrix4x4)
    ensures Transform(v, Multiply(a, b)).w == Transform(Transform(v, a), b).w
  {
    var p, t := Multiply(a, b), Transform(v, a);
    Regroup(v.x, v.y, v.z, v.w, p.m14, p.m24, p.m34, p.m44, t.x, t.y, t.z, t.w, a, b.m14, b.m24, b.m34, b.m44);
  }

  /**
   * With p_i = sum over k of a_ik c_k and t_k = sum over i of v_i a_ik,
   * sum over i of v_i p_i equals sum over k of t_k c_k: one component of
   * `TransformMultiply`, with column c of the right-hand factor.
   */
  lemma Regroup(v1: real, v2: real, v3: real, v4: real, p1: real, p2: real, p3: real, p4: real,
                t1: real, t2: real, t3: real, t4: real, a: Matrix4x4, c1: real, c2: real, c3: real, c4: real)
    requires p1 == a.m11 * c1 + a.m12 * c2 + a.m13 * c3 + a.m14 * c4
    requires p2 == a.m21 * c1 + a.m22 * c2 + a.m23 * c3 + a.m24 * c4
    requires p3 == a.m31 * c1 + a.m32 * c2 + a.m33 * c3 + a.m34 * c4
    requires p4 == a.m41 * c1 + a.m42 * c2 + a.m43 * c3 + a.m44 * c4
    requires t1 == v1 * a.m11 + v2 * a.m21 + v3 * a.m31 + v4 * a.m41
    requires t2 == v1 * a.m12 + v2 * a.m22 + v3 * a.m32 + v4 * a.m42
    requires t3 == v1 * a.m13 + v2 * a.m23 + v3 * a.m33 + v4 * a.m43
    requires t4 == v1 * a.m14 + v2 * a.m24 + v3 * a.m34 + v4 * a.m44
    ensures v1 * p1 + v2 * p2 + v3 * p3 + v4 * p4 == t1 * c1 + t2 * c2 + t3 * c3 + t4 * c4
  {
    Expand(v1, v2, v3, v4, a, c1, c2, c3, c4);
  }

  /** The polynomial identity behind `Regroup`. */
  lemma Expand(v1: real, v2: real, v3: real, v4: real, a: Matrix4x4, c1: real, c2: real, c3: real, c4: real)
    ensures v1 * (a.m11 * c1 + a.m12 * c2 + a.m13 * c3 + a.m14 * c4)
          + v2 * (a.m21 * c1 + a.m22 * c2 + a.m23 * c3 + a.m24 * c4)
          + v3 * (a.m31 * c1 + a.m32 * c2 + a.m33 * c3 + a.m34 * c4)
          + v4 * (a.m41 * c1 + a.m42 * c2 + a.m43 * c3 + a.m44 * c4)
         == (v1 * a.m11 + v2 * a.m21 + v3 * a.m31 + v4 * a.m41) * c1
          + (v1 * a.m12 + v2 * a.m22 + v3 * a.m32 + v4 * a.m42) * c2
          + (v1 * a.m13 + v2 * a.m23 + v3 * a.m33 + v4 * a.m43) * c3
          + (v1 * a.m14 + v2 * a.m24 + v3 * a.m34 + v4 * a.m44) * c4
  {
  }

  /** The row-vector transform by the transpose is the column-vector product. */
  lemma TransformTranspose(v: Vector4, m: Matrix4x4)
    ensures Transform(v, Transpose(m)) == Apply(m, v)
  {
  }

  /** Scaling multiplies x, y and z by their factors and keeps w. */
  lemma CreateScaleTransform(v: Vector4, x: real, y: real, z: real)
    ensures Transform(v, CreateScale(x, y, z)) == Vector4(v.x * x, v.y * y, v.z * z, v.w)
  {
  }

  /** Scalings by reciprocal factors undo each other. */
  lemma CreateScaleInverse(x: real, y: real, z: real, a: real, b: real, c: real)
    requires x * a == 1.0 && y * b == 1.0 && z * c == 1.0
    ensures IsInverse(CreateScale(x, y, z), CreateScale(a, b, c))
  {
    CreateScaleProduct(x, y, z, a, b, c);
  }

  /** Two scalings compose by multiplying their factors. */
  lemma CreateScaleProduct(x: real, y: real, z: real, a: real, b: real, c: real)
    ensures Multiply(CreateScale(x, y, z), CreateScale(a, b, c)) == CreateScale(x * a, y * b, z * c)
  {
  }

  /** The identity is symmetric. */
  lemma TransposeIdentity()
    ensures Transpose(Identity) == Identity
  {
  }

  lemma MultiplyIdentity(m: Matrix4x4)
    ensures Multiply(Identity, m) == m
    ensures Multiply(m, Identity) == m
  {
  }

  /** Transformation is linear in the vector. */
  lemma TransformLinear(u: Vector4, v: Vector4, k: real, m: Matrix4x4)
    ensures Transform(Add(u, Scale(v, k)), m) == Add(Transform(u, m), Scale(Transform(v, m), k))
  {
    TransformAdd(u, Scale(v, k), m);
    TransformScale(v, k, m);
  }

  lemma TransformAdd(u: Vector4, v: Vector4, m: Matrix4x4)
    ensures Transform(Add(u, v), m) == Add(Transform(u, m), Transform(v, m))
  {
    TransformAddX(u, v, m);
    TransformAddY(u, v, m);
    TransformAddZ(u, v, m);
    TransformAddW(u, v, m);
    SameComponents(Transform(Add(u, v), m), Add(Transform(u, m), Transform(v, m)));
  }

  lemma TransformAddX(u: Vector4, v: Vector4, m: Matrix4x4)
    ensures Transform(Add(u, v), m).x == Transform(u, m).x + Transform(v, m).x
  {
    AddColumn(u.x, u.y, u.z, u.w, v.x, v.y, v.z, v.w, m.m11, m.m21, m.m31, m.m41);
  }

  lemma TransformAddY(u: Vector4, v: Vector4, m: Matrix4x4)
    ensures Transform(Add(u, v), m).y == Transform(u, m).y + Transform(v, m).y
  {
    AddColumn(u.x, u.y, u.z, u.w, v.x, v.y, v.z, v.w, m.m12, m.m22, m.m32, m.m42);
  }

  lemma TransformAddZ(u: Vector4, v: Vector4, m: Matrix4x4)
    ensures Transform(Add(u, v), m).z == Transform(u, m).z + Transform(v, m).z
  {
    AddColumn(u.x, u.y, u.z, u.w, v.x, v.y, v.z, v.w, m.m13, m.m23, m.m33, m.m43);
  }

  lemma TransformAddW(u: Vector4, v: Vector4, m: Matrix4x4)
    ensures Transform(Add(u, v), m).w == Transform(u, m).w + Transform(v, m).w
  {
    AddColumn(u.x, u.y, u.z, u.w, v.x, v.y, v.z, v.w, m.m14, m.m24, m.m34, m.m44);
  }

  lemma TransformScale(v: Vector4, k: real, m: Matrix4x4)
    ensures Transform(Scale(v, k), m) == Scale(Transform(v, m), k)
  {
    TransformScaleX(v, k, m);
    TransformScaleY(v, k, m);
    TransformScaleZ(v, k, m);
    TransformScaleW(v, k, m);
    ScaledComponents(Transform(Scale(v, k), m), Transform(v, m), k);
  }

  /** A tuple whose components are those of t times k is t scaled by k. */
  lemma ScaledComponents(a: Vector4, t: Vector4, k: real)
    requires a.x == t.x * k && a.y == t.y * k && a.z == t.z * k && a.w == t.w * k
    ensures a == Scale(t, k)
  {
  }

  /** The same for colours. */
  lemma ScaledComponents3(a: Vector3, t: Vector3, k: real)
    requires a.x == t.x * k && a.y == t.y * k && a.z == t.z * k
    ensures a == Scale3(t, k)
  {
  }

  /** Tuples agree when their components do. */
  lemma SameComponents(a: Vector4, b: Vector4)
    requires a.x == b.x && a.y == b.y && a.z == b.z && a.w == b.w
    ensures a == b
  {
  }

  /** The same for colours. */
  lemma SameComponents3(a: Vector3, b: Vector3)
    requires a.x == b.x && a.y == b.y && a.z == b.z
    ensures a == b
  {
  }

  /** One component of `TransformAdd`. */
  lemma AddColumn(u1: real, u2: real, u3: real, u4: real, v1: real, v2: real, v3: real, v4: real,
                  c1: real, c2: real, c3: real, c4: real)
    ensures (u1 + v1) * c1 + (u2 + v2) * c2 + (u3 + v3) * c3 + (u4 + v4) * c4
         == (u1 * c1 + u2 * c2 + u3 * c3 + u4 * c4) + (v1 * c1 + v2 * c2 + v3 * c3 + v4 * c4)
  {
  }

  lemma TransformScaleX(v: Vector4, k: real, m: Matrix4x4)
    ensures Transform(Scale(v, k), m).x == Transform(v, m).x * k
  {
    ScaleColumn(Transform(Scale(v, k), m).x, Transform(v, m).x, v.x, v.y, v.z, v.w, k, m.m11, m.m21, m.m31, m.m41);
  }

  lemma TransformScaleY(v: Vector4, k: real, m: Matrix4x4)
    ensures Transform(Scale(v, k), m).y == Transform(v, m).y * k
  {
    ScaleColumn(Transform(Scale(v, k), m).y, Transform(v, m).y, v.x, v.y, v.z, v.w, k, m.m12, m.m22, m.m32, m.m42);
  }

  lemma TransformScaleZ(v: Vector4, k: real, m: Matrix4x4)
    ensures Transform(Scale(v, k), m).z == Transform(v, m).z * k
  {
    ScaleColumn(Transform(Scale(v, k), m).z, Transform(v, m).z, v.x, v.y, v.z, v.w, k, m.m13, m.m23, m.m33, m.m43);
  }

  lemma TransformScaleW(v: Vector4, k: real, m: Matrix4x4)
    ensures Transform(Scale(v, k), m).w == Transform(v, m).w * k
  {
    ScaleColumn(Transform(Scale(v, k), m).w, Transform(v, m).w, v.x, v.y, v.z, v.w, k, m.m14, m.m24, m.m34, m.m44);
  }

  /** One component of `TransformScale`. */
  lemma ScaleColumn(r: real, q: real, v1: real, v2: real, v3: real, v4: real, k: real, c1: real, c2: real, c3: real, c4: real)
    requires r == v1 * k * c1 + v2 * k * c2 + v3 * k * c3 + v4 * k * c4
    requires q == v1 * c1 + v2 * c2 + v3 * c3 + v4 * c4
    ensures r == q * k
  {
  }
}
