/**
 * `Transformations.CreateShearing` and `Transformation4x4Builder`: a builder
 * that collects matrices in order and composes them by a left fold of
 * `Matrix4x4.Multiply` from the identity.
 */
module Transformations {
  import opened Numerics
  import opened Primitives

  /**
   * `CreateShearing(xy, xz, yx, yz, zx, zy)`. The arguments land transposed
   * with respect to the book's column-vector matrix, so that under the
   * row-vector `Transform` x moves in proportion to y by `xy`, and so on.
   */
  function CreateShearing(xy: real, xz: real, yx: real, yz: real, zx: real, zy: real): (m: Matrix4x4)
    ensures m.m11 == 1.0 && m.m22 == 1.0 && m.m33 == 1.0 && m.m44 == 1.0
    ensures m.m14 == 0.0 && m.m24 == 0.0 && m.m34 == 0.0
    ensures m.m41 == 0.0 && m.m42 == 0.0 && m.m43 == 0.0
  {
    Matrix4x4(1.0, yx, zx, 0.0,
              xy, 1.0, zy, 0.0,
              xz, yz, 1.0, 0.0,
              0.0, 0.0, 0.0, 1.0)
  }

  /** The builder's list of matrices, in the order they were added. */
  datatype Builder = Builder(transformations: seq<Matrix4x4>)

  const NewBuilder: Builder := Builder([])

  /** `Append`: one more matrix at the end; the ones before stay as they were. */
  function Append(b: Builder, m: Matrix4x4): (r: Builder)
    ensures |r.transformations| == |b.transformations| + 1
    ensures r.transformations[..|b.transformations|] == b.transformations
    ensures r.transformations[|b.transformations|] == m
  {
    Builder(b.transformations + [m])
  }

  /** `WithShearing`: appends its own literal copy of the shearing matrix. */
  function WithShearing(b: Builder, xy: real, xz: real, yx: real, yz: real, zx: real, zy: real): (r: Builder)
    ensures r == Append(b, CreateShearing(xy, xz, yx, yz, zx, zy))
  {
    Builder(b.transformations + [Matrix4x4(1.0, yx, zx, 0.0,
                                           xy, 1.0, zy, 0.0,
                                           xz, yz, 1.0, 0.0,
                                           0.0, 0.0, 0.0, 1.0)])
  }

  /** `Enumerable.Aggregate(seed, Matrix4x4.Multiply)`: a left fold. */
  function Aggregate(acc: Matrix4x4, ms: seq<Matrix4x4>): Matrix4x4
    decreases |ms|
  {
    if |ms| == 0 then acc else Aggregate(Multiply(acc, ms[0]), ms[1..])
  }

  /**
   * `Build`: the product of the collected matrices, in append order, so
   * transforming by it applies the matrices one after another, the first
   * appended first.
   */
  function Build(b: Builder): (m: Matrix4x4)
    ensures forall v :: Transform(v, m) == TransformAll(v, b.transformations)
  {
    var m := Aggregate(Identity, b.transformations);
    assert forall v :: Transform(v, m) == TransformAll(v, b.transformations) by {
      forall v ensures Transform(v, m) == TransformAll(v, b.transformations) {
        TransformAggregate(v, Identity, b.transformations);
        TransformIdentity(v);
      }
    }
    m
  }

  /** Transforming a tuple by each matrix of the list in turn. */
  function TransformAll(v: Vector4, ms: seq<Matrix4x4>): Vector4
    decreases |ms|
  {
    if |ms| == 0 then v else TransformAll(Transform(v, ms[0]), ms[1..])
  }

  // ------------------------------------------------------------------ facts

  /** Shearing with all six proportions zero is the identity. */
  lemma ShearingZero()
    ensures CreateShearing(0.0, 0.0, 0.0, 0.0, 0.0, 0.0) == Identity
  {
  }

  /**
   * Under the row-vector transform, (x, y, z, w) goes to
   * (x + xy·y + xz·z, yx·x + y + yz·z, zx·x + zy·y + z, w): w is kept, so
   * points stay points and vectors stay vectors.
   */
  lemma ShearingTransform(v: Vector4, xy: real, xz: real, yx: real, yz: real, zx: real, zy: real)
    ensures Transform(v, CreateShearing(xy, xz, yx, yz, zx, zy))
         == Vector4(v.x + xy * v.y + xz * v.z, yx * v.x + v.y + yz * v.z, zx * v.x + zy * v.y + v.z, v.w)
    ensures IsPoint(v) <==> IsPoint(Transform(v, CreateShearing(xy, xz, yx, yz, zx, zy)))
    ensures IsVector(v) <==> IsVector(Transform(v, CreateShearing(xy, xz, yx, yz, zx, zy)))
  {
  }

  /** An empty builder builds the identity; one matrix builds that matrix. */
  lemma BuildEmptyAndSingle(m: Matrix4x4)
    ensures Build(NewBuilder) == Identity
    ensures Build(Append(NewBuilder, m)) == m
  {
    assert Append(NewBuilder, m).transformations == [m];
    assert Aggregate(Identity, [m]) == Aggregate(Multiply(Identity, m), [m][1..]);
    assert [m][1..] == [];
    MultiplyIdentity(m);
  }

  /** Folding over one more matrix multiplies the previous fold by it on the right. */
  lemma {:induction false} AggregateSnoc(acc: Matrix4x4, ms: seq<Matrix4x4>, m: Matrix4x4)
    ensures Aggregate(acc, ms + [m]) == Multiply(Aggregate(acc, ms), m)
    decreases |ms|
  {
    if |ms| > 0 {
      assert (ms + [m])[1..] == ms[1..] + [m];
      AggregateSnoc(Multiply(acc, ms[0]), ms[1..], m);
    }
  }

  /** `Build` after `Append(m)` is the previous `Build` times `m`: M1·M2·…·Mn in append order. */
  lemma BuildAppend(b: Builder, m: Matrix4x4)
    ensures Build(Append(b, m)) == Multiply(Build(b), m)
  {
    AggregateSnoc(Identity, b.transformations, m);
  }

  /** Transforming by a fold is transforming by the seed and then by each matrix in turn. */
  lemma {:induction false} TransformAggregate(v: Vector4, acc: Matrix4x4, ms: seq<Matrix4x4>)
    ensures Transform(v, Aggregate(acc, ms)) == TransformAll(Transform(v, acc), ms)
    decreases |ms|
  {
    if |ms| > 0 {
      TransformAggregate(v, Multiply(acc, ms[0]), ms[1..]);
      TransformMultiply(v, acc, ms[0]);
    }
  }

  /** The two-matrix case: `Build()` of [A, B] transforms by A and then by B. */
  lemma BuildTwo(v: Vector4, a: Matrix4x4, b: Matrix4x4)
    ensures Transform(v, Build(Append(Append(NewBuilder, a), b))) == Transform(Transform(v, a), b)
  {
    assert Append(Append(NewBuilder, a), b).transformations == [a, b];
    assert TransformAll(v, [a, b]) == TransformAll(Transform(v, a), [a, b][1..]);
    assert [a, b][1..] == [b];
    assert TransformAll(Transform(v, a), [b]) == TransformAll(Transform(Transform(v, a), b), [b][1..]);
    assert [b][1..] == [];
  }
}
