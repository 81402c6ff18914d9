# Ray tracer core, modelled in Dafny

This project models the geometric core of a small C# ray tracer that follows
"The Ray Tracer Challenge", together with two pure helpers from its examples.
The core covers:

- points and vectors as 4-tuples, and reflecting a vector about a normal;
- shearing matrices and a builder that composes transformations;
- rays, and the unit sphere with its stored transform and inverse;
- ray–sphere intersection and surface normals;
- choosing the hit from a list of intersections;
- intersecting a world of objects;
- the material's lighting function;
- the projectile trajectory;
- converting colour channels to bytes.

Everything is over `real` instead of IEEE `float`. Matrices follow
System.Numerics: a `Matrix4x4` has sixteen fields `m11`…`m44`, and
`Vector4.Transform(v, M)` is the row vector `v` times `M`.

Functions that need a square root take it as a parameter `sqrt`. This covers
`MathF.Sqrt` and `Vector4.Normalize`. `Normalize` and `NormalAt` require
`SqrtOk` (the non-negative root) at the value whose root they take. The
intersection functions accept any `sqrt`; the facts about them that need the
true root require `SqrtOk`, or a literal root, at the values used.

`Matrix4x4.Invert` is not modelled. A sphere's inverse is supplied together
with its transform, and the facts that need it require `m · inv = I`.

Modules:

- `Numerics`: tuple and matrix arithmetic.
- `Primitives`: `Point`, `Vector`, `IsPoint`, `IsVector` and `Reflect`.
- `Rays`: the ray and its position.
- `Transformations`: shearing and the transformation builder.
- `Materials`: `Material`, `PointLight` and `Lighting`.
- `Quadratics`: the quadratic that `Sphere.Intersect` solves.
- `Spheres`: the sphere, its intersections and its normals.
- `Ordering`: the stable sort by t behind LINQ's `OrderBy`.
- `Hits`: `IntersectionExtensions.Hit`.
- `Worlds`: `World` and `World.Intersect`.
- `Projectiles`: `ProjectileEnvironment`.
- `ColorBytes`: `Vector3ColorExtensions`.

Two places in the source do not do what their own comments or tests say.

- `Ray.Position` returns the origin for every t. Its test expects origin + t·direction. This is reported under Findings below.
- `Hit` keeps only intersections with t > 0, but the comment above it speaks of the lowest "nonnegative" t. The model follows the code. `Hits.HitSkipsZero` shows that, in every list, an intersection at t = 0 is never the hit. The tests do not decide which was meant, so the model records this difference and does not count it as a bug.

## Model

| member | source | states |
|---|---|---|
| Numerics.Normalize | src/RayTracerChallenge.Core/Sphere.cs:53 | normalising a vector (w = 0) gives a vector |
| Numerics.NormalizeUnit | src/RayTracerChallenge.Core/Sphere.cs:53 | the normalised tuple has length one |
| Numerics.NormalizeRescale | src/RayTracerChallenge.Core/Sphere.cs:53 | scaling the normalised tuple back by the original length gives the original, so the direction is kept |
| Numerics.TransformIdentity | test/RayTracerChallenge.Test/MatricesUnitTest.cs:132-141 | transforming by the identity changes nothing |
| Numerics.MultiplyIdentity | test/RayTracerChallenge.Test/MatricesUnitTest.cs:117-130 | the identity is a left and a right unit of the matrix product |
| Numerics.TransformMultiply | src/RayTracerChallenge.Core/Transformation4x4Builder.cs:24-25 | transforming by a product A·B is transforming by A and then by B |
| Numerics.TransformTranspose | test/RayTracerChallenge.Test/MatricesUnitTest.cs:98-115 | the row-vector transform by the transpose is the column-vector product M·v |
| Numerics.TransformLinear | src/RayTracerChallenge.Core/Sphere.cs:27 | transforming is linear: (u + k·v)·M = u·M + k·(v·M) |
| Numerics.CreateScaleTransform | test/RayTracerChallenge.Test/Features/Worlds.cs:64 | a scaling multiplies x, y and z by their factors and keeps w |
| Numerics.CreateScaleProduct | test/RayTracerChallenge.Test/Features/Worlds.cs:64 | two scalings compose by multiplying their factors |
| Numerics.CreateScaleInverse | test/RayTracerChallenge.Test/Features/Worlds.cs:64 | scalings by reciprocal factors are inverse to each other |
| Primitives.Point | src/RayTracerChallenge.Core/Primitives.cs:5 | the point keeps x, y and z, is a point and is not a vector |
| Primitives.Vector | src/RayTracerChallenge.Core/Primitives.cs:7 | the vector keeps x, y and z, is a vector and is not a point |
| Primitives.NeverPointAndVector | src/RayTracerChallenge.Core/Vector4Extensions.cs:5-9 | `IsPoint` (w = 1) and `IsVector` (w = 0) never hold of the same tuple |
| Primitives.PointVectorArithmetic | test/RayTracerChallenge.Test/Features/Tuples.cs:68-143 | point + vector is a point, point − point and vector − vector are vectors, point − vector is a point, and zero − vector negates it |
| Primitives.Reflect | src/RayTracerChallenge.Core/Vector4Extensions.cs:11-14 | a vector orthogonal to the normal is unchanged; two vectors give a vector; about a unit normal the component along the normal changes sign |
| Primitives.ReflectTwice | src/RayTracerChallenge.Core/Vector4Extensions.cs:11-14 | reflecting twice about a unit normal gives the vector back |
| Primitives.ReflectKeepsLength | src/RayTracerChallenge.Core/Vector4Extensions.cs:11-14 | reflection about a unit normal keeps the squared length |
| Rays.PositionAsWritten | src/RayTracerChallenge.Core/Ray.cs:5-8 | the position the code returns is a point when the origin is one |
| Rays.PositionAsWrittenIgnoresT | src/RayTracerChallenge.Core/Ray.cs:5-8 | the code returns the origin whatever t is |
| Rays.PositionAsWrittenAgreement | src/RayTracerChallenge.Core/Ray.cs:5-8 | the code's position equals origin + t·direction exactly when t = 0 or the direction is zero |
| Rays.Position | test/RayTracerChallenge.Test/Features/Rays.cs:16-30 | the intended position is a point when the origin is a point and the direction a vector |
| Rays.PositionDisplacement | test/RayTracerChallenge.Test/Features/Rays.cs:16-30 | the intended position lies t·direction from the origin, and is the origin at t = 0 |
| Rays.PositionAdditive | test/RayTracerChallenge.Test/Features/Rays.cs:16-30 | walking s and then t along the direction is walking s + t |
| Rays.PositionTestRay | test/RayTracerChallenge.Test/Features/Rays.cs:16-30 | from (2, 3, 4) along (1, 0, 0) the intended position is (2 + t, 3, 4), which covers every row of the test, while the code stays at (2, 3, 4) |
| Rays.TransformRayIdentity | src/RayTracerChallenge.Core/Sphere.cs:27 | transforming a ray by the identity leaves it unchanged |
| Rays.TransformRay | src/RayTracerChallenge.Core/Sphere.cs:27 | every point of the transformed ray is the transformed point of the original ray, for every t |
| Transformations.CreateShearing | src/RayTracerChallenge.Core/Transformations.cs:5-12 | the diagonal is all ones and the last row and column are (0, 0, 0, 1) |
| Transformations.ShearingZero | src/RayTracerChallenge.Core/Transformations.cs:5-12 | shearing with all six proportions zero is the identity |
| Transformations.ShearingTransform | src/RayTracerChallenge.Core/Transformations.cs:7-11 | (x, y, z, w) goes to (x + xy·y + xz·z, yx·x + y + yz·z, zx·x + zy·y + z, w), so points stay points and vectors stay vectors |
| Transformations.Append | src/RayTracerChallenge.Core/Transformation4x4Builder.cs:7-11 | exactly one matrix is added, at the end, and the earlier ones are unchanged |
| Transformations.WithShearing | src/RayTracerChallenge.Core/Transformation4x4Builder.cs:13-22 | the builder's literal matrix is the one `CreateShearing` builds from the same arguments |
| Transformations.BuildEmptyAndSingle | src/RayTracerChallenge.Core/Transformation4x4Builder.cs:24-25 | an empty builder builds the identity, and a builder holding one matrix builds that matrix |
| Transformations.AggregateSnoc | src/RayTracerChallenge.Core/Transformation4x4Builder.cs:24-25 | `Aggregate`, the left fold with `Multiply`: folding over one more matrix multiplies the previous fold by it on the right |
| Transformations.BuildAppend | src/RayTracerChallenge.Core/Transformation4x4Builder.cs:24-25 | the build after appending m is the build before times m, so the result is M1·M2·…·Mn in append order |
| Transformations.TransformAggregate | src/RayTracerChallenge.Core/Transformation4x4Builder.cs:24-25 | transforming by an `Aggregate` fold is transforming by the seed and then by each matrix in turn |
| Transformations.Build | src/RayTracerChallenge.Core/Transformation4x4Builder.cs:24-25 | transforming by the built matrix applies the collected matrices one after another, the first appended first, for every tuple |
| Transformations.BuildTwo | examples/RayTracerChallenge.Examples.Clock/AnalogClockRenderer.cs:16-20 | transforming by the build of [A, B] is transforming by A and then by B |
| Materials.LightingIgnoresGeometry | src/RayTracerChallenge.Core/Material.cs:34-48 | the result depends on neither the point, the eye vector, the normal nor the light's position |
| Materials.LightingIgnoresShininess | src/RayTracerChallenge.Core/Material.cs:34-48 | the result does not depend on the shininess |
| Materials.LightingByChannel | src/RayTracerChallenge.Core/Material.cs:36-47 | each channel is colour·intensity·(ambient + diffuse) + intensity·specular |
| Materials.LightingLinearInIntensity | src/RayTracerChallenge.Core/Material.cs:36-47 | scaling the light's intensity by k scales the result by k |
| Materials.Lighting | src/RayTracerChallenge.Core/Material.cs:34-48 | a light of zero intensity gives black |
| Materials.LightingDefaultWhite | test/RayTracerChallenge.Test/Features/Materials.cs:17-30 | the default material under a white light gives (1.9, 1.9, 1.9) for any geometry |
| Quadratics.QuadraticFormula | src/RayTracerChallenge.Core/Sphere.cs:35-41 | with a > 0 and a non-negative discriminant, t is a root exactly when it is (−b − ds)/2a or (−b + ds)/2a |
| Quadratics.NoRealRoot | src/RayTracerChallenge.Core/Sphere.cs:35-36 | with a > 0 and a negative discriminant, no t is a root |
| Quadratics.RootsOrdered | src/RayTracerChallenge.Core/Sphere.cs:40-41 | the near root is not after the far root, and they are equal exactly when the discriminant is zero |
| Spheres.WithTransform | src/RayTracerChallenge.Core/Sphere.cs:15-23 | setting the transform stores the matrix and its inverse, keeps the material, and leaves the sphere valid |
| Spheres.DefaultValid | src/RayTracerChallenge.Core/Sphere.cs:9-10 | the default identity transform and identity inverse are inverse to each other |
| Spheres.ObjectSpaceRoundTrip | src/RayTracerChallenge.Core/Sphere.cs:15-23 | for a valid sphere, going from object space to world space and back is the identity |
| Spheres.Intersect | src/RayTracerChallenge.Core/Sphere.cs:25-43 | the result has zero or two intersections; it is empty exactly when the discriminant is negative; every intersection belongs to this sphere |
| Spheres.CoefficientsInObjectSpace | src/RayTracerChallenge.Core/Sphere.cs:27-33 | a transformed sphere's quadratic is the unit sphere's quadratic for the ray carried into object space |
| Spheres.SphereEquation | src/RayTracerChallenge.Core/Sphere.cs:29-35 | t is a root of the quadratic exactly when the object-space ray at t lies on the unit sphere |
| Spheres.IntersectExactlyTheHits | src/RayTracerChallenge.Core/Sphere.cs:25-43 | a parameter is returned exactly when the object-space ray at that parameter lies on the unit sphere |
| Spheres.IntersectOrdered | src/RayTracerChallenge.Core/Sphere.cs:40-41 | the first intersection is not after the second, and they coincide exactly at a tangent |
| Spheres.DefaultCoefficients | src/RayTracerChallenge.Core/Sphere.cs:27-33 | against the default sphere the world ray is already the object-space ray |
| Spheres.IntersectTwoPoints | test/RayTracerChallenge.Test/Features/Spheres.cs:5-16 | from (0, 0, −5) along +z the default sphere gives t = 4 and t = 6 |
| Spheres.IntersectTangent | test/RayTracerChallenge.Test/Features/Spheres.cs:18-29 | from (0, 1, −5) it gives t = 5 twice |
| Spheres.IntersectMiss | test/RayTracerChallenge.Test/Features/Spheres.cs:31-40 | from (0, 2, −5) it gives nothing |
| Spheres.IntersectFromInside | test/RayTracerChallenge.Test/Features/Spheres.cs:42-53 | from the centre it gives t = −1 and t = 1 |
| Spheres.IntersectBehind | test/RayTracerChallenge.Test/Features/Spheres.cs:55-66 | from (0, 0, 5) it gives t = −6 and t = −4 |
| Spheres.NormalAt | src/RayTracerChallenge.Core/Sphere.cs:45-54 | the normal is a vector (w = 0) |
| Spheres.WorldNormal | src/RayTracerChallenge.Core/Sphere.cs:47-51 | the un-normalised normal has w = 0, and with no transform it is the vector from the centre to the point |
| Spheres.NormalAtUnit | src/RayTracerChallenge.Core/Sphere.cs:50-53 | the normal has length one and points along the un-normalised world normal |
| Spheres.NormalAtDefault | src/RayTracerChallenge.Core/Sphere.cs:45-54 | on the untransformed unit sphere the normal at a surface point is the vector from the centre to that point |
| Ordering.InsertContents | src/RayTracerChallenge.Core/World.cs:13 | inserting adds the new entry and nothing else, as a multiset and as a membership test |
| Ordering.InsertSorted | src/RayTracerChallenge.Core/World.cs:13 | inserting into a sorted list keeps it sorted |
| Ordering.SortSpec | src/RayTracerChallenge.Core/World.cs:13 | `Sort`, the model of `OrderBy(i => i.T)`, orders by t and returns a permutation of its input |
| Ordering.SortStable | src/RayTracerChallenge.Core/World.cs:13 | for every t, the entries with that t keep their relative order |
| Ordering.SortedStableUnique | src/RayTracerChallenge.Core/World.cs:13 | two sorted lists with the same entries, in the same order, under every t are equal |
| Ordering.SortCharacterised | src/RayTracerChallenge.Core/World.cs:13 | any sorted arrangement that keeps each t's entries in input order is the sort's result |
| Hits.Positive | src/RayTracerChallenge.Core/IntersectionExtensions.cs:9 | an entry is kept exactly when it is in the input and its t is positive |
| Hits.Hit | src/RayTracerChallenge.Core/IntersectionExtensions.cs:5-18 | what `Hit` returns is an entry of the list with a positive t |
| Hits.HitRef | src/RayTracerChallenge.Core/IntersectionExtensions.cs:5-18 | a one-pass reference for the hit: nothing exactly when no t is positive, otherwise the hit |
| Hits.HitNone | src/RayTracerChallenge.Core/IntersectionExtensions.cs:8-17 | `Hit` returns nothing exactly when no t is positive |
| Hits.HitIsHit | src/RayTracerChallenge.Core/IntersectionExtensions.cs:8-14 | the entry returned is in the input, its t is positive, no positive t is lower, and no earlier entry has the same t |
| Hits.HitCharacterised | src/RayTracerChallenge.Core/IntersectionExtensions.cs:5-18 | an entry is returned exactly when it is the hit |
| Hits.HitMatchesReference | src/RayTracerChallenge.Core/IntersectionExtensions.cs:5-18 | the sort-based `Hit` and the one-pass reference agree on every list |
| Hits.HitIgnoresNonPositive | src/RayTracerChallenge.Core/IntersectionExtensions.cs:9 | entries with t ≤ 0 never change the result |
| Hits.HitSkipsZero | src/RayTracerChallenge.Core/IntersectionExtensions.cs:7-9 | in every list, the hit never has t = 0, although the comment speaks of the lowest nonnegative t |
| Hits.HitSkipsZeroAlone | src/RayTracerChallenge.Core/IntersectionExtensions.cs:7-9 | the list holding one entry at t = 0, and the list a tangent ray through its own origin gives (two entries at t = 0), have no hit |
| Hits.HitAllPositive | test/RayTracerChallenge.Test/Features/Intersections.cs:28-38 | of t = 1 and t = 2 the hit is t = 1 |
| Hits.HitSomeNegative | test/RayTracerChallenge.Test/Features/Intersections.cs:40-50 | of t = −1 and t = 1 the hit is t = 1 |
| Hits.HitAllNegative | test/RayTracerChallenge.Test/Features/Intersections.cs:52-62 | of t = −2 and t = −1 there is no hit |
| Hits.HitLowestPositive | test/RayTracerChallenge.Test/Features/Intersections.cs:64-76 | of t = 5, 7, −3 and 2 the hit is t = 2 |
| Worlds.Intersect | src/RayTracerChallenge.Core/World.cs:11-14 | the result is sorted by t and is a permutation of every object's intersections, in object order |
| Worlds.NewWorldEmpty | test/RayTracerChallenge.Test/Features/Worlds.cs:7-14 | a new world has no objects and no light, and yields nothing for every ray |
| Worlds.GatherAppend | src/RayTracerChallenge.Core/World.cs:11-12 | gathering over two runs of objects is gathering over each, one after the other |
| Worlds.Gather | src/RayTracerChallenge.Core/World.cs:12 | each object contributes none or two intersections, so the gathered count is even and at most twice the number of objects |
| Worlds.GatherMembers | src/RayTracerChallenge.Core/World.cs:11-12 | an entry is gathered exactly when some object's own list has it |
| Worlds.IntersectContents | src/RayTracerChallenge.Core/World.cs:11-14 | the world's list holds exactly what the objects' lists hold, and its length is the sum of their lengths |
| Worlds.IntersectStable | src/RayTracerChallenge.Core/World.cs:13 | entries with equal t keep their order across the objects |
| Worlds.IntersectCharacterised | src/RayTracerChallenge.Core/World.cs:11-14 | the world's list is the one sorted arrangement of the gathered intersections that keeps each t's entries in order |
| Worlds.OuterValid | test/RayTracerChallenge.Test/Features/Worlds.cs:55-66 | the default world's outer sphere keeps a true inverse |
| Worlds.InnerValid | test/RayTracerChallenge.Test/Features/Worlds.cs:64 | the half-size sphere with inverse scale 2 keeps a true inverse |
| Worlds.IntersectDefaultWorld | test/RayTracerChallenge.Test/Features/Worlds.cs:25-38 | the ray from (0, 0, −5) along +z meets the default world at t = 4, 4.5, 5.5 and 6, the outer sphere first and last |
| Projectiles.Trajectory | examples/RayTracerChallenge.Examples.ProjectileMotion/ProjectileEnvironment.cs:9-17 | every state in the trajectory is above the ground, and there are at most fuel of them |
| Projectiles.TickMotion | examples/RayTracerChallenge.Examples.ProjectileMotion/ProjectileEnvironment.cs:5-7 | `Tick` moves the position by the velocity and the velocity by gravity + wind |
| Projectiles.IterateClosedForm | examples/RayTracerChallenge.Examples.ProjectileMotion/ProjectileEnvironment.cs:5-7 | after n ticks the velocity is v + n·a and the position is x + n·v + n(n−1)/2·a, where a = gravity + wind |
| Projectiles.TrajectoryIterates | examples/RayTracerChallenge.Examples.ProjectileMotion/ProjectileEnvironment.cs:9-17 | entry i is the state after i ticks, and a trajectory shorter than the fuel stops at the first state on or below the ground |
| Projectiles.TrajectorySteps | examples/RayTracerChallenge.Examples.ProjectileMotion/ProjectileEnvironment.cs:11-16 | the trajectory is empty exactly when the launch is not above the ground, and otherwise starts with it; each entry is `Tick` of the one before; `Tick` of the last entry is on or below the ground |
| Projectiles.TrajectoryLength | examples/RayTracerChallenge.Examples.ProjectileMotion/ProjectileEnvironment.cs:11-16 | if the first landing is at tick n, within the fuel, the trajectory has exactly n entries |
| Projectiles.TrajectoryFuel | examples/RayTracerChallenge.Examples.ProjectileMotion/ProjectileEnvironment.cs:11-16 | once the projectile lands within the fuel, more fuel gives the same trajectory |
| Projectiles.CannonVelocity | test/RayTracerChallenge.Test/Examples/VirtualCannonUnitTest.cs:16-17 | the normalised (1, 1, 0) is (s, s, 0) with s > 0 and s² = 1/2 |
| Projectiles.CannonTrajectory | test/RayTracerChallenge.Test/Examples/VirtualCannonUnitTest.cs:11-31 | the cannon's trajectory has 17 states, and the last is at (16s − 0.2, 16s − 11, 0), within 1e-3 of (11.114, 0.313) |
| ColorBytes.ToByte | examples/RayTracerChallenge.Examples.Chapter6/Vector3ColorExtensions.cs:14-27 | above 255 gives 255, below 0 gives 0, and otherwise the result is the whole part of the value |
| ColorBytes.ToByteMonotone | examples/RayTracerChallenge.Examples.Chapter6/Vector3ColorExtensions.cs:14-27 | a larger value never gives a smaller byte |
| ColorBytes.ToByteExact | examples/RayTracerChallenge.Examples.Chapter6/Vector3ColorExtensions.cs:26 | a whole number in [0, 255] passes through unchanged |
| ColorBytes.ToByteFloor | examples/RayTracerChallenge.Examples.Chapter6/Vector3ColorExtensions.cs:26 | every value from n up to, but not including, n + 1 gives n |
| ColorBytes.ToSKColorRoundTrip | examples/RayTracerChallenge.Examples.Chapter6/Vector3ColorExtensions.cs:8-12 | converting an 8-bit colour to channels in [0, 1] and back gives the same colour |
| ColorBytes.ToSKColor | examples/RayTracerChallenge.Examples.Chapter6/Vector3ColorExtensions.cs:8-12 | for each of red, green and blue: a channel at or above 1 gives 255, at or below 0 gives 0, and otherwise the whole part of 255 times the channel |
| ColorBytes.ToSKColorWhiteBlack | examples/RayTracerChallenge.Examples.Chapter6/Vector3ColorExtensions.cs:8-12 | white gives (255, 255, 255) and black gives (0, 0, 0) |
| ColorBytes.ToSKColorSaturates | examples/RayTracerChallenge.Examples.Chapter6/Vector3ColorExtensions.cs:8-27 | channels outside [0, 1] saturate at 255 or 0, and 0.5 gives 127 |

## Left out

- IEEE `float` semantics (rounding, NaN, infinities, `float.Epsilon`) are not modelled; the model uses `real`. `IsPoint` and `IsVector` test w for exact equality, which is what `|w − 1| < float.Epsilon` means on floats.
- The cannon test's expected values (11.114 and 0.313, to within 1e-3) are float results. The model proves that the real-number trajectory falls within the same tolerance.
- Matrices are a sixteen-field datatype, like the `Matrix4x4` struct, instead of a sequence of rows. The sixteen-field form makes the product proofs tractable for the solver.
- `MathF.Sqrt` and `Vector4.Normalize` are not modelled; the square root is a parameter.
- `Matrix4x4.Invert` is not modelled, including its failure on singular matrices.
- Spheres.WithTransform: requires the supplied inverse to be a true inverse. The model does not cover the source's singular case, where `Invert` fails and leaves an unusable inverse.
- Spheres.Intersect: requires the object-space direction to be non-zero (a ≠ 0). The source divides by 2a and gets NaN or an infinity there.
- Worlds.Intersect: requires the same for every object, for the same reason.
- Spheres.NormalAt: requires a non-zero un-normalised normal. A world point that maps to the object-space centre gives the zero vector, which the source passes to `Vector4.Normalize`, and the result there is NaN in every component.
- Numerics.Normalize: requires a non-zero tuple. `Vector4.Normalize` divides by the length and returns NaN components for the zero vector.
- Projectiles.Trajectory: bounded by `fuel` ticks. The source's lazy sequence has no bound and never ends for a projectile that never comes down. The lemmas state the trajectory in terms of the first landing, whatever fuel covers it.
- `Ray.Transform` is not among the source files. It is modelled as transforming both origin and direction, as `Sphere.Intersect` uses it.
- `ISceneObject` declares no `Intersect`, yet `World` calls one, so the world's objects are spheres here.
- `Matrix4x4.CreateTranslation`, `CreateRotationZ` and the determinant are library calls, and are not modelled.
- The analogue clock, the renderers, SkiaSharp, the GUI windows and background threads are drawing and UI code with nothing exact to state.
- Transformations.Append: the source's builder is a mutable class whose `Append` and `WithShearing` add to its list in place and return `this`. The model returns a new `Builder` value instead. Every caller in the repository chains the calls fluently, so no caller can see the difference.
- `Tick` leaving the environment alone, and `Build` leaving the builder's list alone, need no lemma here: the model's values are immutable.
- An `SKColor`'s alpha channel is left at its default, opaque. A NaN passed to `(byte)` is not modelled.
- The test project's duplicate helpers for points, vectors and colours repeat the core's definitions.

## Findings

| source | as written | input that shows it | evidently intended | confidence | as-written member | corrected member |
|---|---|---|---|---|---|---|
| src/RayTracerChallenge.Core/Ray.cs:5-8 | `Position(t)` returns the origin whatever t is | the ray from (2, 3, 4) along (1, 0, 0) at t = 1 gives (2, 3, 4); the position test expects (3, 3, 4) | origin + t·direction, as the test at test/RayTracerChallenge.Test/Features/Rays.cs:16-30 expects | high; not executed | Rays.PositionAsWritten | Rays.Position |
