# Skirt, modelled in Dafny

Skirt is a small ray tracer written three times over: a JavaScript prototype
(`utils.js`, `object.js`, `raytracer.js`, `texture.js`, rendered tile by tile in
`worker.js`), a C++ port compiled to WebAssembly (`rcl/`), and a C++ rewrite
(`src/core`, `src/shapes`, `src/loader`). Around the JavaScript renderer sit a
beanstalkd client (`bs.js`) and a page (`broker.js`) that cuts the image into
tiles, queues them, and draws the results.

This project models the parts of that code whose behaviour is decided by
comparisons, index arithmetic, small algebraic identities and in-place buffer
updates, and proves what each part promises:

- the value types: `Vector3`, `vec3`, `Vector2`, `sign`/`clamp`, `AABB`, the
  16-entry `Matrix4` and `Mat4` (as classes over an `array<real>` whose edits
  are proved to touch only their entries), and the `EFloat` interval type;
- the film and the renderers that fill it: `FilmTile::WritePixel`,
  `Film::MergeTile`, the 8-bit quantisation and the image-format dispatch, the
  C++ `Render` tile loop, `rcl.cpp`'s `render` and `worker.js`'s `render`, each
  as a method proved against a function that says what lands at each index;
- ray-object intersection: spheres, axis-aligned rectangles, boxes, flipped
  normals, transforms and their bounding boxes, constant media, and the
  nearest-hit scan of `HitList.hit`;
- the scatter rules of the materials (Lambertian, metal, dielectric, Schlick's
  approximation) and the textures;
- the Perlin tables: the Fisher–Yates shuffle, the lattice hash, trilinear
  interpolation and turbulence;
- the scene-key split of the loader and the YAML node checks of the parser;
- the beanstalkd client: response framing, the message loop over its string
  buffer and FIFO of callbacks, response classification and the YAML-ish list
  and dictionary parsers;
- the broker's work tiles: coverage of the image once per pass, the order the
  sort puts them in, and the monotone record of drawn tiles.

Floating-point numbers are modelled as `real`. Square roots, sines, cosines,
tangents and logarithms are function parameters, constrained only by what the
code relies on (a square root is non-negative and squares back). Random draws
(`frand`, `Math.random`) are parameters with their range as a precondition.
Where the C++ or JavaScript code aborts (`CHECK`, `assert`), the model makes
the condition a precondition, unless the abort is itself the point (`LookAt`).
One module stands for each source file; modules of the JavaScript files reuse
the vector operations of `CoreVector3` as their reference definitions.

## Model

| member | source | states |
|---|---|---|
| `CoreMath.Sign` | src/core/math.h:10-13 | `sign(a)` is -1 exactly for negative `a` and 1 otherwise, so `sign(0) == 1` |
| `CoreMath.SignTimesMagnitude` | src/core/math.h:10-13 | `sign(a) * abs(a) == a` for every `a`, zero included |
| `CoreMath.Clamp` | src/core/math.h:15-18 | for `lo <= hi` the result lies in `[lo, hi]`, is `v` itself when `v` is inside, `lo` below and `hi` above; for `lo > hi` it is `lo` |
| `CoreMath.ClampIdempotent` | src/core/math.h:15-18 | clamping twice into a well-formed range equals clamping once |
| `CoreVector3.With` | src/core/Vector3.h:25-30 | writing through the non-const `operator[]` sets component `i` (0 = x, 1 = y, 2 = z) and leaves the other two |
| `CoreVector3.ComponentsDetermine` | src/core/Vector3.h:19-24 | the three reads of `operator[]` (x, y, z for 0, 1, 2) determine the vector |
| `CoreVector3.Equal` | src/core/Vector3.h:40-42 | `==` holds exactly when all three components agree |
| `CoreVector3.NotEqual` | src/core/Vector3.h:43 | `!=` is the negation of `==` |
| `CoreVector3.Neg` | src/core/Vector3.h:45 | unary minus is the additive inverse: `v + (-v)` is the zero vector |
| `CoreVector3.NegInvolution` | src/core/Vector3.h:45 | `-(-v) == v` |
| `CoreVector3.AddSubCancel` | src/core/Vector3.h:62-70 | `(a + b) - b == a` and `(a - b) + b == a` over reals |
| `CoreVector3.AddCommutes` | src/core/Vector3.h:62-65 | `a + b == b + a` |
| `CoreVector3.SubIsAddNeg` | src/core/Vector3.h:67-70 | `a - b == a + (-b)` |
| `CoreVector3.Div` | src/core/Vector3.h:77-81 | `a / t` needs `t != 0` (the CHECK) and scaling the result back by `t` gives `a` |
| `CoreVector3.ScalarDiv` | src/core/Vector3.h:93-96 | `t / a` needs `t != 0` and equals `a / t`: it scales `a`, it takes no reciprocal |
| `CoreVector3.ScalarDivScalesInsteadOfInverting` | src/core/Vector3.h:93-96 | `2 / (1, 1, 4)` is `(0.5, 0.5, 2)`, not the reciprocal `(2, 2, 0.5)` |
| `CoreVector3.Min` | src/core/Vector3.h:98-100 | each component is at most both arguments' and equals one of them |
| `CoreVector3.Max` | src/core/Vector3.h:102-104 | each component is at least both arguments' and equals one of them |
| `CoreVector3.DotSymmetric` | src/core/Vector3.h:106-108 | `dot(a, b) == dot(b, a)` |
| `CoreVector3.ZeroAbsorbs` | src/core/Vector3.h:106-108 | the zero vector has zero dot product with anything and stays zero when scaled |
| `CoreVector3.CrossOrthogonal` | src/core/Vector3.h:110-113 | `dot(cross(a, b), a) == dot(cross(a, b), b) == 0` |
| `CoreVector3.DotLinear` | src/core/Vector3.h:106-108 | `dot` is linear in its second argument |
| `CoreVector3.LenSq` | src/core/Vector3.h:47 | `lensq()` is non-negative, equals `dot(v, v)` and is zero only for the zero vector |
| `CoreVector3.Length` | src/core/Vector3.h:48 | `length()` is non-negative, squares to `lensq()` and is zero only for the zero vector |
| `CoreVector3.Unit` | src/core/Vector3.h:115 | `unit(v)` needs a non-zero length (the CHECK in `/`), has length 1 and points along `v` (positive dot, zero cross product); scaling it back by the length gives `v` |
| `CoreVector3.ReflectFlipsNormalComponent` | src/core/Vector3.h:117-119 | for `dot(n, n) == 1`, `dot(reflect(v, n), n) == -dot(v, n)` |
| `CoreVector3.ReflectInvolution` | src/core/Vector3.h:117-119 | for `dot(n, n) == 1`, `reflect(reflect(v, n), n) == v` |
| `CoreVector3.Refract` | src/core/Vector3.h:121-127 | `refract` returns `(0, 0, 0)` whenever the discriminant is `<= 0` |
| `CoreVector3.RefractIsUnit` | src/core/Vector3.h:121-127 | with a unit normal and a positive discriminant the refracted direction has length 1, so the zero vector comes back exactly on total internal reflection |
| `CoreVector3.Vector3Var.constructor` | src/core/Vector3.h:11-13 | a variable initialised from a vector holds that vector |
| `CoreVector3.Vector3Var.SetComponent` | src/core/Vector3.h:25-30 | assignment through `v[i]` changes component `i` only |
| `CoreVector3.Vector3Var.AddAssign` | src/core/Vector3.h:83 | `a += b` leaves `a` holding `old(a) + b` |
| `CoreVector3.Vector3Var.SubAssign` | src/core/Vector3.h:84 | `a -= b` leaves `a` holding `old(a) - b` |
| `CoreVector3.Vector3Var.MulAssign` | src/core/Vector3.h:85 | `a *= t` scales every field by `t` |
| `CoreVector3.Vector3Var.DivAssign` | src/core/Vector3.h:86-89 | `a /= t` needs `t != 0` and leaves `old(a) / t` |
| `CoreVector3.Vector3Var.Normalize` | src/core/Vector3.h:50-57 | `normalize()` needs a non-zero length and leaves `unit(old value)`, of length 1 |
| `CoreVector3.Get` | src/core/Vector3.h:19-24 | `operator[]` reads x, y, z for 0, 1, 2; `ComponentsDetermine` shows the three reads determine the vector |
| `CoreVector3.Add` | src/core/Vector3.h:62-65 | componentwise sum; its meaning is stated by `AddSubCancel` (subtracting undoes it) and `AddCommutes` |
| `CoreVector3.Sub` | src/core/Vector3.h:67-70 | componentwise difference; `AddSubCancel` and `SubIsAddNeg` state it undoes `+` and adds the negation |
| `CoreVector3.Scale` | src/core/Vector3.h:72-75 | componentwise scaling; `Div` scales back by `t`, `DotLinear` and `ZeroAbsorbs` state its interplay with the dot product |
| `CoreVector3.Dot` | src/core/Vector3.h:106-108 | the dot product; `DotSymmetric`, `DotLinear` and `LenSq` state its symmetry, linearity and positivity |
| `CoreVector3.Cross` | src/core/Vector3.h:110-113 | the cross product; `CrossOrthogonal` states it is orthogonal to both arguments |
| `CoreVector3.Reflect` | src/core/Vector3.h:117-119 | `v - 2 dot(v, n) n`; `ReflectFlipsNormalComponent` and `ReflectInvolution` state its meaning against a unit normal |
| `CoreVec3.Get` | src/core/vec3.h:19-24 | `operator[]` needs `0 <= i <= 2` and reads the same component as `Vector3`'s (x, y, z) |
| `CoreVec3.Equal` | src/core/vec3.h:40-42 | `==` holds exactly when the two vectors are equal |
| `CoreVec3.Neg` | src/core/vec3.h:45 | negation agrees with `Vector3`'s additive inverse |
| `CoreVec3.Add` | src/core/vec3.h:62-65 | `+` agrees with the componentwise `Vector3` sum |
| `CoreVec3.Sub` | src/core/vec3.h:67-70 | `-` agrees with the componentwise `Vector3` difference |
| `CoreVec3.Scale` | src/core/vec3.h:72-75 | `a * t` agrees with `Vector3` scaling |
| `CoreVec3.Div` | src/core/vec3.h:77-81 | `a / t` needs `t != 0` and agrees with `Vector3`'s division, which scaling by `t` undoes |
| `CoreVec3.ScalarDiv` | src/core/vec3.h:93-96 | `t / a` needs `t != 0` and is `a` scaled by `1 / t`, the same as `a / t` |
| `CoreVec3.Min` | src/core/vec3.h:98-100 | agrees with `Vector3`'s `min`, a componentwise lower bound of both arguments |
| `CoreVec3.Max` | src/core/vec3.h:102-104 | agrees with `Vector3`'s `max`, a componentwise upper bound of both arguments |
| `CoreVec3.Dot` | src/core/vec3.h:106-108 | agrees with `Vector3`'s `dot` |
| `CoreVec3.Cross` | src/core/vec3.h:110-113 | agrees with `Vector3`'s `cross` |
| `CoreVec3.Unit` | src/core/vec3.h:115 | needs a non-zero length and agrees with `Vector3`'s `unit`, a unit vector along `v` |
| `CoreVec3.Reflect` | src/core/vec3.h:117 | agrees with `Vector3`'s `reflect` |
| `CoreVec3.Refract` | src/core/vec3.h:119-125 | agrees with `Vector3`'s `refract`, so it yields the zero vector when the discriminant is `<= 0` |
| `CoreVec3.Vec3Laws` | src/core/vec3.h:45-117 | `-(-a) == a`, `(a + b) - b == a`, `(a / t) * t == a`, `dot` symmetric, `cross(a, b)` orthogonal to `a` and `b`, and `reflect` an involution for a unit normal |
| `CoreVector2.With` | src/core/Vector2.h:25-28 | writing component `i` (`0 <= i <= 1`) through `operator[]` sets that component and leaves the other unchanged |
| `CoreVector2.Equal` | src/core/Vector2.h:37-39 | `==` holds exactly when both components agree, i.e. when the vectors are equal |
| `CoreVector2.NotEqual` | src/core/Vector2.h:40-42 | `!=` is the exact negation of equality |
| `CoreVector2.Neg` | src/core/Vector2.h:44-46 | unary `-` is the additive inverse: `v + (-v)` is the zero vector |
| `CoreVector2.NegInvolution` | src/core/Vector2.h:44-46 | negating twice gives back the vector |
| `CoreVector2.AddSubCancel` | src/core/Vector2.h:69-79 | `(a + b) - b == a` |
| `CoreVector2.Div` | src/core/Vector2.h:87-92 | `a / t` needs `t != 0`, and scaling the result by `t` gives back `a` |
| `CoreVector2.ScalarDiv` | src/core/Vector2.h:117-121 | `t / a` needs `t != 0` and is the same vector as `a / t` |
| `CoreVector2.Min` | src/core/Vector2.h:123-126 | each component is a lower bound of both arguments and equals one of them |
| `CoreVector2.Max` | src/core/Vector2.h:128-131 | each component is an upper bound of both arguments and equals one of them |
| `CoreVector2.DotSymmetric` | src/core/Vector2.h:138-141 | `Dot(a, b) == Dot(b, a)` |
| `CoreVector2.LengthSq` | src/core/Vector2.h:48-50 | non-negative, and zero exactly for the zero vector |
| `CoreVector2.Length` | src/core/Vector2.h:51-53 | a non-negative root of `LengthSq()`, zero exactly for the zero vector |
| `CoreVector2.Distance` | src/core/Vector2.h:133-136 | non-negative, and zero exactly between equal points |
| `CoreVector2.DistanceSymmetric` | src/core/Vector2.h:133-136 | `Distance(a, b) == Distance(b, a)` |
| `CoreVector2.Normalized` | src/core/Vector2.h:143-146 | for a vector of non-zero length the result has squared length 1 and, scaled back by the length, gives `v`: it points along `v` |
| `CoreVector2.Vector2Var.constructor` | src/core/Vector2.h:13-15 | the new variable holds the given components |
| `CoreVector2.Vector2Var.AddAssign` | src/core/Vector2.h:94-97 | `a += b` leaves `a` holding `old(a) + b` |
| `CoreVector2.Vector2Var.SubAssign` | src/core/Vector2.h:98-101 | `a -= b` leaves `a` holding `old(a) - b` |
| `CoreVector2.Vector2Var.MulAssign` | src/core/Vector2.h:102-105 | `a *= t` leaves `a` holding `old(a) * t` |
| `CoreVector2.Vector2Var.DivAssign` | src/core/Vector2.h:106-110 | `a /= t` needs `t != 0` and leaves `a` holding `old(a) / t` |
| `CoreVector2.Vector2Var.Normalize` | src/core/Vector2.h:55-61 | needs a non-zero length; afterwards the variable holds the normalized old value, of squared length 1 and pointing along the old value |
| `CoreAABB.Empty` | src/core/AABB.h:10-12 | the default box has `+MaxFloat` below and `-MaxFloat` above on every axis and holds no point |
| `CoreAABB.FromPoints` | src/core/AABB.h:13-17 | the two-point constructor gives a sorted box holding both points, contained in every box that holds them, whatever their order |
| `CoreAABB.Corner` | src/core/AABB.h:34-39 | bit k of `c` selects `maxp` on axis k and `minp` otherwise |
| `CoreAABB.CornerExtremes` | src/core/AABB.h:34-39 | `Corner(0) == minp` and `Corner(7) == maxp` |
| `CoreAABB.CornersInside` | src/core/AABB.h:105-109 | every corner of a sorted box is `Inside` it |
| `CoreAABB.Diagonal` | src/core/AABB.h:41-43 | `minp + Diagonal() == maxp`, and the diagonal is non-negative exactly when the box is sorted |
| `CoreAABB.SurfaceArea` | src/core/AABB.h:45-48 | non-negative for a sorted box |
| `CoreAABB.Volume` | src/core/AABB.h:50-53 | non-negative for a sorted box |
| `CoreAABB.LongestDimension` | src/core/AABB.h:55-60 | returns an axis in 0..2 whose diagonal component is the largest, and 0 exactly when x is strictly the longest |
| `CoreAABB.Offset` | src/core/AABB.h:62-68 | on an axis of positive extent, `minp + offset * extent` gives the coordinate back and an inside point maps into [0, 1]; an axis of zero extent stays `p - minp` |
| `CoreAABB.OffsetAxis` | src/core/AABB.h:64-66 | one axis of `Offset`: the quotient times the extent is the distance, and lies in [0, 1] when the distance is within the extent |
| `CoreAABB.UnionPoint` | src/core/AABB.h:75-79 | the result is sorted, holds `p` and every point of `b`; grown from the empty box it is exactly `[p, p]`; grown from a sorted box it is the smallest box holding both |
| `CoreAABB.UnionPointStep` | src/core/AABB.h:75-79 | growing a box point by point from the empty box keeps every point seen and, for finite points, stays the tightest box holding them |
| `CoreAABB.Union` | src/core/AABB.h:81-88 | the result is sorted and holds every point of both boxes |
| `CoreAABB.UnionWithEmpty` | src/core/AABB.h:81-88 | the empty box is a unit of `Union` on sorted boxes of finite floats, on either side |
| `CoreAABB.UnionOfEmptiesIsWholeSpace` | src/core/AABB.h:81-88 | the union of two empty boxes is the box spanning all finite floats, which contains the origin, not the empty box |
| `CoreAABB.UnionKeepingEmpty` | src/core/AABB.h:81-88 | the union without re-sorting holds both boxes and agrees with `Union` whenever one argument is sorted |
| `CoreAABB.UnionKeepingEmptyUnit` | src/core/AABB.h:81-88 | without re-sorting, the empty box is a unit for every finite box, itself included |
| `CoreAABB.Intersect` | src/core/AABB.h:90-97 | the result is sorted, and for overlapping sorted boxes it holds exactly the points common to both |
| `CoreAABB.IntersectOfDisjointIsNotEmpty` | src/core/AABB.h:90-97 | two disjoint unit boxes intersect to the gap between them, which holds a point of neither |
| `CoreAABB.OverlapsSymmetric` | src/core/AABB.h:99-103 | `Overlaps(a, b) == Overlaps(b, a)` |
| `CoreAABB.OverlapsIffCommonPoint` | src/core/AABB.h:99-103 | two sorted boxes overlap exactly when some point is inside both |
| `CoreAABB.Expand` | src/core/AABB.h:111-114 | the result is sorted, and for `delta >= 0` it contains the original sorted box and all its points |
| `CoreAABB.Inside` | src/core/AABB.h:105-109 | a point lies within the bounds on all three axes, inclusively; `CornersInside` holds every corner of a sorted box inside it |
| `CoreAABB.Overlaps` | src/core/AABB.h:99-103 | the three axis intervals meet; `OverlapsIffCommonPoint` proves this is exactly having a common `Inside` point, and `OverlapsSymmetric` its symmetry |
| `CoreMatrix4.ScaleAll` | src/core/Matrix4.h:87 | every entry of the 16-entry matrix is multiplied by `k` |
| `CoreMatrix4.Transform` | src/core/Matrix4.h:94-99 | because `w` is `(...) \|\| 1.0`, always 1, a point maps to its linear image plus the translation column, whatever the bottom row holds |
| `CoreMatrix4.HomogeneousW` | src/core/Matrix4.h:95 | the intended `w` is never zero and is 1 on a matrix whose bottom row is (0, 0, 0, 1) |
| `CoreMatrix4.TransformPoint` | src/core/Matrix4.h:94-99 | the intended homogeneous transform agrees with `Transform` on affine matrices, and scaling it by `w` gives `Transform`'s result |
| `CoreMatrix4.TransformIgnoresW` | src/core/Matrix4.h:94-99 | with every entry of the identity doubled, `Transform` maps `v` to `2v`, while the homogeneous reading gives `v`; the two differ at every non-zero point |
| `CoreMatrix4.TransformPointScaleInvariant` | src/core/Matrix4.h:94-99 | the intended transform is unchanged when the whole matrix is scaled by a non-zero `k` |
| `CoreMatrix4.TransformIdentity` | src/core/Matrix4.h:13 | the identity leaves every point and every normal unchanged |
| `CoreMatrix4.TransformIgnoresBottomRow` | src/core/Matrix4.h:94-99 | two matrices that differ only in the bottom row transform every point alike |
| `CoreMatrix4.TransformNormalLinear` | src/core/Matrix4.h:101-105 | `TransformNormal` is linear and maps zero to zero, and `Transform` of the origin is the translation column |
| `CoreMatrix4.TransformNormalAdds` | src/core/Matrix4.h:101-105 | `TransformNormal` of a sum is the sum of the images |
| `CoreMatrix4.TransformNormalScales` | src/core/Matrix4.h:101-105 | `TransformNormal` commutes with scaling a vector |
| `CoreMatrix4.TransformRay` | src/core/Matrix4.h:107-112 | the ray keeps `minT` and `maxT`, and its origin and its direction both go through the as-written `Transform`: the linear part plus the translation column |
| `CoreMatrix4.TransformRayAffine` | src/core/Matrix4.h:107-112 | on an affine matrix the ray transform agrees with the homogeneous `TransformPoint`; on the doubled identity a non-zero origin does not |
| `CoreMatrix4.TransformRayTranslatesDirection` | src/core/Matrix4.h:107-112 | under a pure translation, the direction is moved as well as the origin |
| `CoreMatrix4.TransformBox` | src/core/Matrix4.h:114-123 | the box grown from the empty box over the eight corners mapped by the as-written `Transform` is sorted, holds every transformed corner and, when those are finite, is the smallest such box |
| `CoreMatrix4.Scaled` | src/core/Matrix4.cc:10-24 | `Scale(x, y, z)` leaves the translation column (entries 12..15) unchanged |
| `CoreMatrix4.Translated` | src/core/Matrix4.cc:26-32 | `Translate(x, y, z)` leaves entries 0..11 unchanged |
| `CoreMatrix4.RotatedX` | src/core/Matrix4.cc:66-78 | `RotateX` leaves columns 0 and 3 unchanged |
| `CoreMatrix4.RotatedY` | src/core/Matrix4.cc:80-92 | `RotateY` leaves columns 1 and 3 unchanged |
| `CoreMatrix4.RotatedZ` | src/core/Matrix4.cc:94-107 | `RotateZ` leaves columns 2 and 3 unchanged |
| `CoreMatrix4.Multiplied` | src/core/Matrix4.cc:40-61 | the right product with a 3x3 factor leaves the translation column unchanged |
| `CoreMatrix4.RotatedAbout` | src/core/Matrix4.cc:34-64 | `Rotate(axis, rad)` leaves the translation column unchanged |
| `CoreMatrix4.MultipliedTransform` | src/core/Matrix4.cc:40-61 | transforming with the right product by `b` applies `b` to the point first, then the old matrix |
| `CoreMatrix4.ScaledIsProduct` | src/core/Matrix4.cc:10-24 | `Scale(x, y, z)` is the right product with the diagonal factor (x, y, z) |
| `CoreMatrix4.RotatedXIsProduct` | src/core/Matrix4.cc:66-78 | `RotateX` is the right product with the plane rotation about x |
| `CoreMatrix4.RotatedYIsProduct` | src/core/Matrix4.cc:80-92 | `RotateY` is the right product with the plane rotation about y |
| `CoreMatrix4.RotatedZIsProduct` | src/core/Matrix4.cc:94-107 | `RotateZ` is the right product with the plane rotation about z |
| `CoreMatrix4.ScaledTransform` | src/core/Matrix4.cc:10-24 | transforming after `Scale(x, y, z)` is transforming the point scaled per axis |
| `CoreMatrix4.RotatedXTransform` | src/core/Matrix4.cc:66-78 | after `RotateX`, a point is rotated in the y-z plane before the old matrix applies |
| `CoreMatrix4.RotatedYTransform` | src/core/Matrix4.cc:80-92 | after `RotateY`, a point is rotated in the z-x plane before the old matrix applies |
| `CoreMatrix4.RotatedZTransform` | src/core/Matrix4.cc:94-107 | after `RotateZ`, a point is rotated in the x-y plane before the old matrix applies |
| `CoreMatrix4.RotatedAboutTransform` | src/core/Matrix4.cc:34-64 | after `Rotate(axis, rad)`, a point undergoes Rodrigues' rotation about the axis before the old matrix applies |
| `CoreMatrix4.AxisRotationsAreRotateAbout` | src/core/Matrix4.cc:34-107 | `RotateX`, `RotateY` and `RotateZ` are `Rotate` about the unit x, y and z axes |
| `CoreMatrix4.RotateXYZTransform` | src/core/Matrix4.cc:109-114 | `RotateXYZ` applies the z rotation to the point first, then y, then x, then the old matrix |
| `CoreMatrix4.TranslatedTransform` | src/core/Matrix4.cc:26-32 | after `Translate(t)`, points are shifted by `t` before the old matrix applies, and normals are unaffected |
| `CoreMatrix4.TranslateCompose` | src/core/Matrix4.cc:26-32 | two translations compose into the translation by their sum |
| `CoreMatrix4.TranslateIdentity` | src/core/Matrix4.cc:26-32 | on the identity, `Translate(x, y, z)` sets entries 12..15 to (x, y, z, 1) |
| `CoreMatrix4.EditsKeepAffine` | src/core/Matrix4.cc:10-107 | `Scale`, `Translate`, `Rotate` and the axis rotations keep the bottom row (0, 0, 0, 1) |
| `CoreMatrix4.HandednessUnderEdits` | src/core/Matrix4.h:80-85 | the identity keeps handedness and a mirror in x swaps it; scaling multiplies the 3x3 determinant by `x * y * z`, and translating leaves it alone |
| `CoreMatrix4.ScaledDet3` | src/core/Matrix4.h:80-85 | scaling by `x`, `y`, `z` multiplies the 3x3 determinant by `x * y * z` |
| `CoreMatrix4.InverseEntries` | src/core/Matrix4.cc:116-192 | past `CHECK_NE(det, 0)`, the result has 16 entries, each cofactor times `1 / det` |
| `CoreMatrix4.InverseOfIdentity` | src/core/Matrix4.cc:116-192 | the identity has determinant 1 and is its own inverse |
| `CoreMatrix4.InverseOfTranslation` | src/core/Matrix4.cc:116-192 | a translation has determinant 1; its inverse is the opposite translation, which maps every translated point back |
| `CoreMatrix4.InverseOfDiagonal` | src/core/Matrix4.cc:116-192 | a diagonal matrix with non-zero entries has their product as determinant, and its inverse holds their reciprocals |
| `CoreMatrix4.InverseOfScale` | src/core/Matrix4.cc:116-192 | the inverse of a scale by non-zero factors is the scale by their reciprocals |
| `CoreMatrix4.LookAt` | src/core/Matrix4.cc:194-209 | every call aborts: either a `Normalize` meets a zero length, or `CHECK(dir.Length() == 0)` fails on the just-normalised direction |
| `CoreMatrix4.Matrix4.constructor` | src/core/Matrix4.h:13 | a fresh array holding the identity |
| `CoreMatrix4.Matrix4.FromEntries` | src/core/Matrix4.h:15-35 | a fresh array holding the sixteen arguments in order |
| `CoreMatrix4.Matrix4.CopyFrom` | src/core/Matrix4.h:43-46 | afterwards `d` holds the old entries of `m`, also when `m` is this matrix |
| `CoreMatrix4.Matrix4.Scale` | src/core/Matrix4.cc:10-24 | `d` becomes `Scaled` of its old entries |
| `CoreMatrix4.Matrix4.ScaleBy` | src/core/Matrix4.h:55-57 | `d` becomes the old entries scaled by the vector's components |
| `CoreMatrix4.Matrix4.ScaleUniform` | src/core/Matrix4.h:59-61 | `d` becomes the old entries scaled by `v` on every axis |
| `CoreMatrix4.Matrix4.Translate` | src/core/Matrix4.cc:26-32 | `d` becomes `Translated` of its old entries |
| `CoreMatrix4.Matrix4.TranslateBy` | src/core/Matrix4.h:65-67 | `d` becomes the old entries translated by the vector |
| `CoreMatrix4.Matrix4.Rotate` | src/core/Matrix4.cc:34-64 | needs a non-zero axis; `d` becomes the old entries rotated about the normalised axis |
| `CoreMatrix4.Matrix4.RotateX` | src/core/Matrix4.cc:66-78 | `d` becomes `RotatedX` of its old entries with `sin(rad)` and `cos(rad)` |
| `CoreMatrix4.Matrix4.RotateY` | src/core/Matrix4.cc:80-92 | `d` becomes `RotatedY` of its old entries |
| `CoreMatrix4.Matrix4.RotateZ` | src/core/Matrix4.cc:94-107 | `d` becomes `RotatedZ` of its old entries |
| `CoreMatrix4.Matrix4.RotateXYZ` | src/core/Matrix4.cc:109-114 | `d` becomes the old entries rotated about x, then y, then z |
| `CoreMatrix4.Inverse` | src/core/Matrix4.cc:116-192 | needs a non-zero determinant; returns a fresh matrix holding `InverseEntries` of the argument |
| `CoreMatrix4.TransformNormal` | src/core/Matrix4.h:101-105 | the upper-left 3x3 applied to a vector; `TransformNormalLinear` states it is linear and that `Transform` adds the translation column |
| `CoreMatrix4.SwapsHandedness` | src/core/Matrix4.h:80-85 | the 3x3 determinant is negative; `HandednessUnderEdits` states the identity keeps handedness and a mirror swaps it |
| `CoreMat4.Mat4.constructor` | src/core/mat4.h:14 | a fresh array holding the identity |
| `CoreMat4.Mat4.CopyFrom` | src/core/mat4.h:16-19 | afterwards `d` holds the old entries of `m`, also when `m` is this matrix |
| `CoreMat4.Mat4.Scale` | src/core/mat4.h:28-42 | `d` becomes `Scaled` of its old entries, the same edit as `Matrix4::Scale` |
| `CoreMat4.Mat4.ScaleBy` | src/core/mat4.h:24 | `d` becomes the old entries scaled by the vector's components |
| `CoreMat4.Mat4.ScaleUniform` | src/core/mat4.h:26 | `d` becomes the old entries scaled by `v` on every axis |
| `CoreMat4.Mat4.Translate` | src/core/mat4.h:46-52 | `d` becomes `Translated` of its old entries |
| `CoreMat4.Mat4.TranslateBy` | src/core/mat4.h:44 | `d` becomes the old entries translated by the vector |
| `CoreMat4.Mat4.Rotate` | src/core/mat4.h:54-84 | needs a non-zero axis; `d` becomes the old entries rotated about the unit axis |
| `CoreMat4.Mat4.RotateX` | src/core/mat4.h:86-98 | `d` becomes `RotatedX` of its old entries |
| `CoreMat4.Mat4.RotateY` | src/core/mat4.h:100-112 | `d` becomes `RotatedY` of its old entries |
| `CoreMat4.Mat4.RotateZ` | src/core/mat4.h:114-127 | `d` becomes `RotatedZ` of its old entries |
| `CoreMat4.Mat4.RotateXYZ` | src/core/mat4.h:129-134 | `d` becomes the old entries rotated about x, then y, then z |
| `CoreMat4.Mat4.Invert` | src/core/mat4.h:136-204 | on a zero determinant `d` is unchanged; otherwise `d` becomes the inverse entries of its old value |
| `CoreMat4.TransformVector` | src/core/mat4.h:209-214 | like `Transform`: the linear image plus the translation column, which equals the homogeneous transform on affine matrices |
| `CoreMat4.TransformNormalVector` | src/core/mat4.h:216-220 | agrees with `TransformNormal` and does not depend on entries 12..15 |
| `CoreEFloat.Make` | src/core/EFloat.h:16-25 | keeps `v`; with `err == 0` the interval is `[v, v]`, otherwise `[FloatDown(v - err), FloatUp(v + err)]`, which for a non-negative `err` passes `Check` and encloses `[v - err, v + err]` |
| `CoreEFloat.Default` | src/core/EFloat.h:15 | `EFloat()` is zero with the interval `[0, 0]` |
| `CoreEFloat.AbsoluteError` | src/core/EFloat.h:53-55 | `low + error == high`, and the error is non-negative exactly when `Check` holds |
| `CoreEFloat.Add` | src/core/EFloat.h:71-79 | the value is the sum; with sound rounding the result passes `Check` and encloses every sum of enclosed operands |
| `CoreEFloat.Sub` | src/core/EFloat.h:81-89 | as written: the value is the difference, and the bounds are `FloatDown(low - o.low)` and `FloatUp(high - o.high)` |
| `CoreEFloat.SubInverts` | src/core/EFloat.h:81-89 | `[0, 0] - [0, 10]` gives `[0, -10]` under exact rounding, which fails `Check` |
| `CoreEFloat.SubEnclosing` | src/core/EFloat.h:81-89 | the corrected difference passes `Check` and encloses every difference of enclosed operands |
| `CoreEFloat.Min4` | src/core/EFloat.h:98 | a lower bound of the four corner products that is one of them |
| `CoreEFloat.Max4` | src/core/EFloat.h:99 | an upper bound of the four corner products that is one of them |
| `CoreEFloat.Mul` | src/core/EFloat.h:91-102 | as written: `r.low` ends as the rounded-up largest corner product and `r.high` stays 0 |
| `CoreEFloat.MulLosesHigh` | src/core/EFloat.h:91-102 | `[1, 1] * [2, 2]` gives `[2, 0]` under exact rounding, which fails `Check` |
| `CoreEFloat.ProductBetweenCorners` | src/core/EFloat.h:96-99 | a product of enclosed numbers lies between the smallest and the largest corner product |
| `CoreEFloat.MulEnclosing` | src/core/EFloat.h:91-102 | the corrected product passes `Check` and encloses every product of enclosed operands |
| `CoreEFloat.Div` | src/core/EFloat.h:104-120 | as written: a divisor interval that straddles zero, and only such a one, gives the unbounded interval; otherwise `r.low` ends as the rounded-up largest corner quotient and `r.high` stays 0 |
| `CoreEFloat.DivLosesHigh` | src/core/EFloat.h:104-120 | `[2, 2] / [1, 1]` gives `[2, 0]` under exact rounding |
| `CoreEFloat.DivEnclosing` | src/core/EFloat.h:104-120 | the corrected quotient is unbounded exactly for a straddling divisor; otherwise it passes `Check` and encloses every quotient of enclosed operands |
| `CoreEFloat.QuotientBetweenCorners` | src/core/EFloat.h:113-116 | for a divisor interval of one sign, a quotient of enclosed numbers lies between the extreme corner quotients |
| `CoreEFloat.QuotientCorners` | src/core/EFloat.h:113-116 | with numerator between `al` and `ah` and a one-signed divisor between `ol` and `oh`, the quotient lies between the least and the greatest of the four corner quotients |
| `CoreEFloat.Neg` | src/core/EFloat.h:122-130 | negation keeps `Check`, and `x` is enclosed exactly when `-x` is enclosed by the result |
| `CoreEFloat.NegInvolution` | src/core/EFloat.h:122-130 | negating twice gives back the same value and interval |
| `CoreEFloat.Equal` | src/core/EFloat.h:132-134 | `==` compares the values only, so it holds between differently bounded numbers |
| `CoreEFloat.Lift` | src/core/EFloat.h:16-25 | `EFloat(f)` is exact: it passes `Check`, encloses `f` and has zero error |
| `CoreEFloat.AddScalar` | src/core/EFloat.h:171-173 | `f + fe` passes `Check` with sound rounding and encloses `f + y` for every enclosed `y` |
| `CoreEFloat.SubScalar` | src/core/EFloat.h:175-177 | `f - fe` inherits the bound-by-bound subtraction of `operator-` |
| `CoreEFloat.MulScalar` | src/core/EFloat.h:163-165 | `f * fe` has value `f * fe.v` and inherits the zero `high` of `operator*` |
| `CoreEFloat.DivScalar` | src/core/EFloat.h:167-169 | `f / fe` is unbounded exactly for a straddling `fe`, and otherwise inherits the zero `high` of `operator/` |
| `CoreEFloat.Sqrt` | src/core/EFloat.h:179-187 | the value is the root; with sound rounding the result passes `Check` and encloses the root of every enclosed number |
| `CoreEFloat.Abs` | src/core/EFloat.h:189-209 | unchanged for `low >= 0`, negated for `high <= 0`, `[0, max(-low, high)]` around zero; it keeps `Check`, has `low >= 0` and encloses `|x|` for every enclosed `x` |
| `CoreFilm.FilmTile.constructor` | src/core/Film.h:11-14 | a tile of `width * height` zero pixels at `(x, y)` |
| `CoreFilm.FilmTile.WritePixel` | src/core/Film.h:16-18 | for an in-tile pixel, stores `rgb` at `x + y * width` and changes no other pixel |
| `Numerics.PixelIndexInjective` | src/core/Film.h:17 | `x + y * width` is injective on in-range coordinates, so two distinct pixels never share a slot |
| `CoreFilm.TileIndex` | src/core/Film.cc:25 | a tile pixel's row-major index lies inside the tile's data |
| `CoreFilm.Merged` | src/core/Film.cc:20-28 | the merged film keeps its size and every pixel the tile does not cover |
| `CoreFilm.Film.constructor` | src/core/Film.h:27-30 | a film of `width * height` zero pixels with the given file name |
| `CoreFilm.Film.MergeTile` | src/core/Film.cc:20-28 | for a tile that fits in the film, the film's data becomes `Merged` of its old data |
| `CoreFilm.MergeTileWrites` | src/core/Film.cc:20-28 | after the merge, film pixel `(x + tile.x, y + tile.y)` holds tile pixel `(x, y)` |
| `CoreFilm.MergedAt` | src/core/Film.cc:21-25 | a film index that the tile covers holds the tile pixel at its column and row less the tile offset |
| `CoreFilm.MergeIdempotent` | src/core/Film.cc:20-28 | merging the same tile twice is merging it once |
| `CoreFilm.MergeCommutes` | src/core/Film.cc:20-28 | merges of non-overlapping tiles commute |
| `CoreFilm.Quantize` | src/core/Film.cc:61-63 | `int(255.99 * v)` is a byte value 0..255 for `v` in [0, 1] and never positive for a negative `v` |
| `CoreFilm.Quantized` | src/core/Film.cc:79-81 | a colour with channels in [0, 1] quantises to three byte values |
| `CoreFilm.PbmOrder` | src/core/Film.cc:58-66 | `SaveImagePBM` prints exactly `width * height` samples |
| `CoreFilm.PbmOrderPlacesPixel` | src/core/Film.cc:58-66 | pixel `(x, y)` is printed as sample `(height - 1 - y) * width + x`, the top row first |
| `CoreFilm.PbmSamples` | src/core/Film.cc:58-66 | the two loops print the samples in `PbmOrder` |
| `CoreFilm.PngChannel` | src/core/Film.cc:79-86 | every stored byte is in 0..255 |
| `CoreFilm.PngBytes` | src/core/Film.cc:73-88 | the buffer holds four bytes per pixel |
| `CoreFilm.PngLayout` | src/core/Film.cc:82-86 | pixel `(x, y)` starts at byte `(x + y * width) * 4`; its alpha is 255 and a channel in [0, 1] is stored as its quantised value |
| `CoreFilm.PngPixel` | src/core/Film.cc:82-86 | bytes `4i..4i+3` are the three channels converted to `unsigned char` and the alpha 255 |
| `CoreFilm.PngImage` | src/core/Film.cc:71-88 | the loops leave a fresh buffer equal to `PngBytes` of the film |
| `CoreFilm.PngRow` | src/core/Film.cc:77-87 | one row of the loop writes the bytes of `PngBytes` for that row and leaves the earlier rows alone |
| `CoreFilm.StorePixel` | src/core/Film.cc:82-86 | the four bytes at `p` become red, green, blue and 255 of the pixel; the rest of the image is unchanged |
| `CoreFilm.LastIndexOf` | src/core/Film.cc:161-162 | the position of the last `c` in `s`, with no `c` after it, or -1 when there is none |
| `CoreFilm.FileName` | src/core/Film.cc:161-162 | a suffix of the path holding no '/' |
| `CoreFilm.FileNameAt` | src/core/Film.cc:161-162 | the file name is the part of the path after its last '/', or the whole path without one |
| `CoreFilm.NameDot` | src/core/Film.cc:161-162 | a file name that does not start with '.' has its last '.' where the final extension begins |
| `CoreFilm.Extension` | src/core/Film.cc:161-162 | a suffix of the path with no '/', either empty or a '.' followed by no other '.' |
| `CoreFilm.ExtensionOfName` | src/core/Film.cc:161-162 | `dir + stem + "." + ext` has the extension `"." + ext` |
| `CoreFilm.HiddenFileUnsupported` | src/core/Film.cc:160-172 | a hidden file `dir + "." + ext` has no extension and is not saved |
| `CoreFilm.SaveFormat` | src/core/Film.cc:160-172 | the lower-cased extension picks PFM, PBM, PNG or EXR in each direction; any other extension only logs an error |
| `CoreFilm.UpperCaseExtension` | src/core/Film.cc:163-167 | an extension in any case that lower-cases to "png", such as "PNG", is saved as a PNG |
| `CoreIntegrator.Color` | src/core/Integrator.cc:9-19 | every channel is in [0, 1]; on a hit, twice the colour minus one is a unit vector (the normal about the sphere centre); on a miss, blue is 1 and red and green lie between white and (0.5, 0.7) |
| `CoreIntegrator.SkyBlend` | src/core/Integrator.cc:17 | `t = 0.5 * (ud.y + 1)` is in [0, 1]: 0 for a ray straight down and 1 straight up |
| `CoreIntegrator.SkyBluerUpward` | src/core/Integrator.cc:16-18 | a ray that points further up gets a larger blend and a smaller red channel |
| `CoreIntegrator.CameraRay` | src/core/Integrator.cc:24-40 | the ray through pixel `(x, y)` starts at the origin and points at `(-2 + 4x/200, -1 + 2y/100, -1)` |
| `CoreIntegrator.Render` | src/core/Integrator.cc:21-50 | returns a fresh tile at `(x0, y0)` of the given size whose data is `Rendered`, with every pixel written |
| `CoreIntegrator.RenderPlacesPixel` | src/core/Integrator.cc:32-46 | tile pixel `(i, j)` holds the colour of the camera ray through film pixel `(x0 + i, 100 - y0 - height + j)` |
| `ShapesSphere.Bound` | src/shapes/Sphere.cc:9-12 | a sorted box from `(-\|r\|, -\|r\|, -\|r\|)` to `(\|r\|, \|r\|, \|r\|)`, which for `r >= 0` is `[-r, r]` on every axis |
| `ShapesSphere.BoundMissesSphere` | src/shapes/Sphere.cc:9-19 | the lowest point of the sphere `Intersect` intersects, centred at (0, 0, -1), lies outside `Bound()` for every radius |
| `ShapesSphere.CentredBound` | src/shapes/Sphere.cc:15 | the box around the intersected sphere is sorted and holds its centre |
| `ShapesSphere.CentredBoundContainsSphere` | src/shapes/Sphere.cc:15-19 | every point of the intersected sphere lies in `CentredBound` |
| `ShapesSphere.Discriminant` | src/shapes/Sphere.cc:15-19 | a positive discriminant implies a non-zero direction and a non-zero radius, so the roots are defined |
| `ShapesSphere.RootsOrdered` | src/shapes/Sphere.cc:21-28 | the root tried first is not greater than the second |
| `ShapesSphere.Intersect` | src/shapes/Sphere.cc:14-36 | no hit unless the discriminant is positive (a tangent ray misses); a hit is at one of the two roots, strictly inside the ray's window, with the point on the ray and the normal `(p - centre) / radius`, and no root in the window is nearer; no hit means neither root is in the window |
| `ShapesSphere.Area` | src/shapes/Sphere.cc:38-40 | `4 * PI * r * r` is non-negative, zero exactly for a zero radius, and at most the surface of `Bound()` |
| `LoaderParser.Lower` | src/loader/parser.cc:7-12 | returns a string of the same length holding `tolower` of each character |
| `LoaderParser.LowerIdempotent` | src/loader/parser.cc:7-12 | lower-casing twice is lower-casing once |
| `LoaderParser.LowerFixesLowerCase` | src/loader/parser.cc:7-12 | a string without upper-case letters is its own lower-case form |
| `LoaderParser.AssertMap` | src/loader/parser.cc:20-22 | passes exactly for a map and otherwise ends with the fatal error "Not a map" |
| `LoaderParser.AssertSequence` | src/loader/parser.cc:24-26 | passes exactly for a sequence of `size` elements and otherwise ends with "Not a vector" |
| `LoaderParser.AssertNumber` | src/loader/parser.cc:28-31 | passes exactly for a scalar that converts to a float; a non-scalar ends with "Not a value", and an unconvertible scalar ends in the conversion failure |
| `LoaderParser.AssertString` | src/loader/parser.cc:33-35 | passes exactly for a scalar and otherwise ends with "Not a string" |
| `LoaderParser.FirstNonNumber` | src/loader/parser.cc:41-44 | every element before the result is a number, and the element at the result, if any, is not |
| `LoaderParser.ParseVector3` | src/loader/parser.cc:37-47 | succeeds exactly for a sequence of three numbers, whose values it stores in order; otherwise it fails with "Not a vector", or with the failure of the first element that is not a number |
| `LoaderLoader.Find` | src/loader/Loader.cc:14 | `key.find(c)` is `npos` exactly when `c` is absent, and otherwise the first index holding `c` |
| `LoaderLoader.ToInt` | src/loader/Loader.cc:14 | storing a `size_t` in an `int` keeps values up to `INT_MAX` and always gives a 32-bit value |
| `LoaderLoader.ToSize` | src/loader/Loader.cc:16 | passing an `int` as a `size_t` keeps non-negative values and adds 2^64 to negative ones |
| `LoaderLoader.Substr` | src/loader/Loader.cc:16-17 | `substr(pos, count)` is the slice from `pos` of at most `count` characters |
| `LoaderLoader.NposRoundTrip` | src/loader/Loader.cc:14-16 | `npos` stored in an `int` is -1, and -1 passed back as a `size_t` is `npos` |
| `LoaderLoader.SplitKey` | src/loader/Loader.cc:12-18 | a key without '.' gives `(key, "")`; otherwise command, '.' and type rejoin to the key, and the command holds no '.' |
| `LoaderLoader.SplitKeyJoin` | src/loader/Loader.cc:12-18 | for a command without '.', splitting `command + "." + type` gives back both parts, and the type keeps any further '.' |
| `LoaderLoader.LoadScene` | src/loader/Loader.cc:11-22 | each key is split as `SplitKey` says and an empty scene is returned; `SplitKeyJoin` states the split |
| `RclVec3.ValueOf` | rcl/vec3.h:58-59 | the vector a `vec3` holds reads `e[0]`, `e[1]`, `e[2]` as x, y, z |
| `RclVec3.Vec3.constructor` | rcl/vec3.h:8-13 | a fresh `e` holding `(x, y, z)` |
| `RclVec3.Vec3.Get` | rcl/vec3.h:17 | `operator[](i)` reads the same component as `Vector3`'s |
| `RclVec3.Vec3.Set` | rcl/vec3.h:18 | assigning through `operator[](i)` changes component `i` only |
| `RclVec3.Vec3.AddAssign` | rcl/vec3.h:33-35 | `e` becomes the old value plus the old value of `o`, also when `o` is this vector |
| `RclVec3.Vec3.SubAssign` | rcl/vec3.h:36-38 | `e` becomes the old value minus `o`'s old value |
| `RclVec3.Vec3.MulAssign` | rcl/vec3.h:39-41 | `e` becomes the componentwise product with `o`'s old value |
| `RclVec3.Vec3.DivAssign` | rcl/vec3.h:42-44 | for a divisor without zero components, `e` becomes the componentwise quotient |
| `RclVec3.Vec3.AddScalarAssign` | rcl/vec3.h:45-47 | `t` is added to every entry |
| `RclVec3.Vec3.SubScalarAssign` | rcl/vec3.h:48-50 | `t` is subtracted from every entry |
| `RclVec3.Vec3.MulScalarAssign` | rcl/vec3.h:51-53 | every entry is multiplied by `t` |
| `RclVec3.Vec3.DivScalarAssign` | rcl/vec3.h:54-56 | for `t != 0`, every entry is divided by `t` |
| `RclVec3.Vec3.Normalize` | rcl/vec3.h:28-31 | for a non-zero length, `e` becomes the unit vector along the old value, of squared length 1 |
| `RclVec3.Plus` | rcl/vec3.h:15 | unary `+` returns the vector itself |
| `RclVec3.Neg` | rcl/vec3.h:16 | unary `-` agrees with `Vector3`'s negation |
| `RclVec3.NegInvolution` | rcl/vec3.h:16 | negating twice gives the vector back |
| `RclVec3.Add` | rcl/vec3.h:62-64 | agrees with `Vector3`'s sum |
| `RclVec3.Sub` | rcl/vec3.h:65-67 | agrees with `Vector3`'s difference, and adding `b` back gives `a` |
| `RclVec3.Mul` | rcl/vec3.h:71-73 | the componentwise product: multiplying by (1, 1, 1) changes nothing, and by `(k, k, k)` scales by `k` |
| `RclVec3.MulDotSymmetric` | rcl/vec3.h:71-89 | the componentwise product and `dot` are symmetric |
| `RclVec3.Quotient` | rcl/vec3.h:68-70 | for a divisor without zero components, multiplying the quotient by the divisor gives back `a` |
| `RclVec3.AddScalar` | rcl/vec3.h:74-76 | adds `t` to every entry, which subtracting `t` undoes |
| `RclVec3.SubScalar` | rcl/vec3.h:77-79 | subtracts `t` from every entry |
| `RclVec3.Scale` | rcl/vec3.h:80-82 | agrees with `Vector3`'s scaling |
| `RclVec3.DivScalar` | rcl/vec3.h:83-85 | for `t != 0`, scaling the quotient by `t` gives back `a` |
| `RclVec3.Dot` | rcl/vec3.h:87-89 | agrees with `Vector3`'s `dot` |
| `RclVec3.Cross` | rcl/vec3.h:91-95 | agrees with `Vector3`'s `cross` and is orthogonal to both arguments |
| `RclVec3.SqLen` | rcl/vec3.h:20-22 | agrees with `Vector3`'s squared length |
| `RclVec3.Length` | rcl/vec3.h:24-26 | agrees with `Vector3`'s length |
| `RclVec3.Unit` | rcl/vec3.h:97-99 | for a non-zero length, agrees with `Vector3`'s `unit` and has squared length 1 |
| `RclRaytracer.PointAt` | rcl/raytracer.h:14-16 | at `t = 0` it is the origin, and the point minus the origin is `t * direction` |
| `RclRaytracer.HitEqual` | rcl/raytracer.h:29-33 | `==` holds exactly when `t`, `p` and `normal` agree |
| `RclRaytracer.HitNotEqual` | rcl/raytracer.h:35-37 | `!=` is the negation of `==` |
| `RclRaytracer.EqualIgnoresUv` | rcl/raytracer.h:29-33 | hits that differ only in `uv` compare equal |
| `RclRaytracer.NoHitLookalike` | rcl/raytracer.h:27-33 | a real hit at `t = 0` on the origin with a zero normal compares equal to `NoHit`, so it is not found |
| `RclRaytracer.NonZeroNormalFound` | rcl/raytracer.h:27-37 | a hit with a non-zero normal is always different from `NoHit` |
| `RclObjects.Flip` | rcl/objects.h:17-23 | `FlipNormals::hit` keeps whether the child found a hit, negates a found hit's normal and changes nothing else |
| `RclObjects.FlipTwice` | rcl/objects.h:13-23 | wrapping twice in `FlipNormals` gives back the child's hit |
| `RclObjects.Fraction` | rcl/objects.h:44 | a coordinate between the extents gives a texture coordinate in [0, 1] |
| `RclObjects.RectXYHit` | rcl/objects.h:37-46 | a hit is found exactly when the ray crosses `z = k` inside the window (ends included) and inside the extents; it lies on the ray and on the plane, with normal (0, 0, 1) and texture coordinates in [0, 1] |
| `RclObjects.RectXZHit` | rcl/objects.h:61-70 | the same for the plane `y = k`, with normal (0, 1, 0) |
| `RclObjects.RectYZHit` | rcl/objects.h:85-94 | the same for the plane `x = k`, with normal (1, 0, 0) |
| `RclObjects.RectXYBox` | rcl/objects.h:48-50 | the box is thickened by 0.0001 on z only |
| `RclObjects.RectXZBox` | rcl/objects.h:72-74 | the box is thickened by 0.0001 on y only |
| `RclObjects.RectYZBox` | rcl/objects.h:96-98 | the box is thickened by 0.0001 on x only |
| `RclObjects.RectHitsInBoxes` | rcl/objects.h:37-98 | every point a rectangle reports lies in its own `bbox()` |
| `RclObjects.FaceHitInBox` | rcl/objects.h:13-98 | a face lying inside a box, flipped or not, reports only points of that box |
| `RclObjects.BoxFaces` | rcl/objects.h:106-119 | six faces, the odd ones flipped, on the planes `p1.z`, `p0.z`, `p1.y`, `p0.y`, `p1.x`, `p0.x`, all inside the box when `p0 <= p1` |
| `RclObjects.BoxBox` | rcl/objects.h:125-127 | the box spans `pmin` to `pmax` |
| `RclObjects.BoxFacesInBox` | rcl/objects.h:104-127 | for ordered corners, every point a face of the box reports lies in the box's `bbox()` |
| `RclObjects.SphereDisc` | rcl/objects.h:141-146 | a positive discriminant needs a non-zero direction and a non-zero radius, so the division by `a` and by `radius` is defined |
| `RclObjects.SphereRootsOrdered` | rcl/objects.h:147-153 | the root tried first is never beyond the second |
| `RclObjects.SphereHitAt` | rcl/objects.h:149-151 | the hit lies on the ray at `t`, its normal scaled by the radius leads from the centre to the point, and `uv` is `getSphereUV` of the normal |
| `RclObjects.SphereHit` | rcl/objects.h:140-161 | no hit without a positive discriminant; else the nearer root if strictly inside the window, else the farther one, else `NoHit` |
| `RclObjects.SphereHitNearest` | rcl/objects.h:140-161 | when any root lies strictly inside the window, the reported hit is at a root no later than it |
| `RclObjects.SphereHitFound` | rcl/objects.h:151-157 | a sphere hit compares unequal to `NoHit` unless it is at `t = 0` at the origin, with the centre at the origin |
| `RclObjects.SphereBox` | rcl/objects.h:163-165 | the box spans `center - radius` to `center + radius` |
| `RclObjects.SphereBoxHoldsSphere` | rcl/objects.h:163-165 | for a non-negative radius every point of the sphere lies in the box |
| `RclObjects.Corners` | rcl/objects.h:179-187 | the eight corners of the child's box, from `min` to `max` |
| `RclObjects.Mapped` | rcl/objects.h:192-193 | point `i` is `transform(points[i], mat)` |
| `RclObjects.Lowest` | rcl/objects.h:189-197 | a coordinate of `aabb.min` is at most `numeric_limits<float>::max()`, at most every point's, and one of them unless no point is lower |
| `RclObjects.Highest` | rcl/objects.h:190-197 | the same for `aabb.max`, starting from `-numeric_limits<float>::max()` |
| `RclObjects.Enclosing` | rcl/objects.h:189-198 | the computed box holds every point |
| `RclObjects.EnclosingStep` | rcl/objects.h:192-198 | each point lowers `aabb.min` and raises `aabb.max` to include it |
| `RclObjects.Widen` | rcl/objects.h:194-197 | the inner loop makes `aabb.min` the componentwise minimum with `p` and `aabb.max` the maximum |
| `RclObjects.Transform.constructor` | rcl/objects.h:174-199 | `invMat` is the inverse of `mat`, or `mat` when the determinant is zero, and the box is the one around the transformed corners |
| `RclObjects.Transform.HitWith` | rcl/objects.h:201-208 | a miss in the child's space is a miss; a hit keeps `t` and `uv`, its point is carried back by `mat` and its normal is `unit(transformNormal(normal, mat))`: unit length, and scaled by the length of the child's normal carried back by `mat` it is that vector |
| `RclObjects.Transform.ChildRay` | rcl/objects.h:202 | the origin is transformed as a point and the direction as a normal by `invMat` |
| `RclObjects.TransformBoxHoldsCorners` | rcl/objects.h:174-199 | the transformed box holds every transformed corner of the child's box |
| `RclTexture.Truthy` | rcl/texture.h:12-14 | a scatter reads as true exactly when its direction is not the zero vector |
| `RclTexture.Lambertian` | rcl/texture.h:32-35 | leaves from the hit point along `normal + sample` with the albedo, and reads as false exactly when the sample is opposite to the normal |
| `RclTexture.Metal` | rcl/texture.h:48-55 | the fuzzed reflection of the unit direction with the albedo when it leaves on the normal's side, and `NoScatter` exactly when it does not |
| `RclTexture.LeavingIsNonZero` | rcl/texture.h:51-53 | a scatter `Metal` keeps is never the zero direction, so it reads as true |
| `RclTexture.SchlickInUnit` | rcl/texture.h:69-73 | for a cosine in [0, 1] and a positive index, `schlick` is a probability |
| `RclTexture.Sides` | rcl/texture.h:81-89 | the outward normal faces against the ray; entering takes `1 / refidx` and the normal, leaving takes `refidx` and the negated normal; the cosine is not negative for a positive index |
| `RclTexture.Dielectric` | rcl/texture.h:76-99 | white attenuation from the hit point; reflects when refraction fails (unless the draw is exactly 1) or the draw falls below the reflectance, and refracts otherwise |
| `RclTexture.DielectricRefractFails` | rcl/texture.h:91-92 | against a unit normal refraction fails exactly when its discriminant is not positive |
| `RclTexture.Schlick` | rcl/texture.h:69-73 | Schlick's reflectance; `SchlickInUnit` states it is a probability for a cosine in [0, 1] and a positive index |
| `RclPerlin.TargetInRange` | rcl/perlin.h:11 | a draw below 1 gives a swap target in `[0, i]` |
| `RclPerlin.TargetOnePastEnd` | rcl/perlin.h:9-12 | a draw of exactly 1 on the first iteration gives target `n`, one past the end of the array |
| `RclPerlin.SwapTarget` | rcl/perlin.h:11 | the clamped target is in `[0, i]` for every draw in [0, 1] and agrees with the source's for every draw below 1 |
| `RclPerlin.Swap` | rcl/perlin.h:12 | `swap(ret[i], ret[target])` exchanges the two cells and keeps the length |
| `RclPerlin.SwapKeepsOthers` | rcl/perlin.h:12 | the swap leaves every other cell alone |
| `RclPerlin.SwapPermutes` | rcl/perlin.h:12 | a swap only reorders the entries |
| `RclPerlin.Targets` | rcl/perlin.h:11 | the clamped target of iteration `k` lies in [0, k], so every swap is in bounds |
| `RclPerlin.ShuffledByPermutes` | rcl/perlin.h:9-14 | any run of in-bounds swaps from the back only reorders |
| `RclPerlin.ShuffledByKeepsTail` | rcl/perlin.h:9-14 | cells a run of such swaps has not reached keep their entries |
| `RclPerlin.ShuffledPermutes` | rcl/perlin.h:9-14 | the shuffle yields a permutation of its input |
| `RclPerlin.ShuffledKeepsTail` | rcl/perlin.h:9-14 | cells the shuffle has not reached keep their entries |
| `RclPerlin.Permute` | rcl/perlin.h:9-14 | `permute` leaves the array shuffled by the draws, a permutation of what it held |
| `RclPerlin.Iota` | rcl/perlin.h:26-28 | `0, 1, ..., n - 1` |
| `RclPerlin.GeneratePerm` | rcl/perlin.h:24-31 | a fresh 256-entry array holding a permutation of 0..255 |
| `RclPerlin.PermutationIsTable` | rcl/perlin.h:24-31 | every permutation of 0..255 indexes only inside a 256-entry table |
| `RclPerlin.SpreadZero` | rcl/perlin.h:19 | `-1 + 2 * d` is the zero vector exactly for the draw (0.5, 0.5, 0.5) |
| `RclPerlin.Direction` | rcl/perlin.h:19 | every other draw gives a vector of squared length 1 |
| `RclPerlin.GeneratePerlin` | rcl/perlin.h:16-22 | a fresh array of 256 unit vectors, entry `i` from the draws of iteration `i` |
| `RclPerlin.SmoothInUnit` | rcl/perlin.h:34-36 | the smoothstep maps [0, 1] into [0, 1] and fixes 0 and 1 |
| `RclPerlin.Weight` | rcl/perlin.h:42-44 | the axis weight `i * s + (1 - i) * (1 - s)` of corners 0 and 1 |
| `RclPerlin.Offset` | rcl/perlin.h:41 | the offset `u - i` of corners 0 and 1 |
| `RclPerlin.InterpTrilinear` | rcl/perlin.h:33-50 | the three nested loops add exactly the eight corner terms |
| `RclPerlin.WeightsSumToOne` | rcl/perlin.h:42-44 | the eight blending weights sum to 1 |
| `RclPerlin.LatticePointZero` | rcl/perlin.h:33-50 | at a lattice point the interpolation is 0 |
| `RclPerlin.Low8` | rcl/perlin.h:80-82 | `x & 255` is `x` modulo 256, in [0, 255], also for negative `x` |
| `RclPerlin.Xor` | rcl/perlin.h:80-82 | the exclusive or of two table entries stays in [0, 255] |
| `RclPerlin.Hash` | rcl/perlin.h:79-82 | the `ranvec` index of a corner is in range |
| `RclPerlin.Lattice` | rcl/perlin.h:75-85 | corner `n` is the `ranvec` entry picked by the hash of the cell plus the corner's offsets |
| `RclPerlin.LatticeAt` | rcl/perlin.h:76-84 | corner `(di, dj, dk)` is the entry the source's index expression picks |
| `RclPerlin.FractionsInUnit` | rcl/perlin.h:69-71 | the fractional parts are in [0, 1) |
| `RclPerlin.NoiseWith` | rcl/perlin.h:68-87 | `noise` on fixed tables, as a function of the point |
| `RclPerlin.OctavesStep` | rcl/perlin.h:93-97 | each turn of `turb`'s loop adds the next octave |
| `RclPerlin.PowerStep` | rcl/perlin.h:96 | doubling `2^n * p` gives `2^(n+1) * p` |
| `RclPerlin.Perlin.constructor` | rcl/perlin.h:54-59 | a table of unit vectors and three shuffled permutations of 0..255 |
| `RclPerlin.Perlin.Noise` | rcl/perlin.h:68-87 | `noise(p)` blends the eight corners the hash picks for the cell of `p`, at the fractional parts of `p` |
| `RclPerlin.Perlin.Turb` | rcl/perlin.h:89-99 | the absolute value of the octave sum (none for a non-positive depth) |
| `RclPerlin.Abs` | rcl/perlin.h:98 | `fabs` is non-negative and is `a` or `-a` |
| `RclPerlin.Smooth` | rcl/perlin.h:34-36 | the smoothstep `u * u * (3 - 2u)`; `SmoothInUnit` states it maps [0, 1] into [0, 1] and fixes both ends |
| `RclPerlin.Trilinear` | rcl/perlin.h:33-50 | the sum of the eight weighted corner terms; `InterpTrilinear` proves the loops compute it and `WeightsSumToOne` and `LatticePointZero` state its meaning |
| `RclPerlin.Octaves` | rcl/perlin.h:89-97 | the sum of the first `depth` octaves; `OctavesStep` states each turn of `turb` adds the next one |
| `RclRender.Sampling` | rcl/rcl.cpp:24 | at least one sample; a positive request is kept and anything else becomes 1 |
| `RclRender.Byte` | rcl/rcl.cpp:35-37 | the stored byte is in [0, 255], and for a value in [0, 1) it is `255.99 * c` truncated |
| `RclRender.Channel` | rcl/rcl.cpp:30-38 | the four bytes of a pixel are in [0, 255] |
| `RclRender.Bytes` | rcl/rcl.cpp:25-41 | the buffer holds `width * height * 4` bytes |
| `RclRender.PixelBytes` | rcl/rcl.cpp:28-39 | tile pixel `(i, j)` takes the four bytes from `((height - 1 - j) * width + i) * 4`: red, green and blue of image pixel `(x0 + i, HEIGHT - y0 - height + j)`, then 255 |
| `RclRender.RowBounds` | rcl/rcl.cpp:27-28 | tile row `j` starts at a nonnegative byte and ends, inside the buffer, where row `j - 1` starts |
| `RclRender.Emit` | rcl/rcl.cpp:35-38 | the four bytes from the cursor take the pixel's red, green, blue and alpha, the cursor moves by four, and nothing else changes |
| `RclRender.AlphaOpaque` | rcl/rcl.cpp:38 | every fourth byte is 255 and every byte is in [0, 255] |
| `RclRender.GradientBytes` | rcl/rcl.cpp:33-37 | inside the image the red byte is the truncated gradient without wrap-around, and blue is 51 |
| `RclRender.Renderer.constructor` | rcl/rcl.cpp:12 | the globals start at zero |
| `RclRender.Renderer.Setup` | rcl/rcl.cpp:17-20 | `setup` records the width and the height and ignores the seed |
| `RclRender.Renderer.Render` | rcl/rcl.cpp:23-42 | `render` returns a fresh buffer equal to `Bytes`, written through a cursor that ends at its size |
| `JsUtils.Index` | utils.js:2-8 | entry `i` of the array is component `i` of the vector |
| `JsUtils.X` | utils.js:10 | the getter `x` reads entry 0 |
| `JsUtils.Y` | utils.js:11 | the getter `y` reads entry 1 |
| `JsUtils.Z` | utils.js:12 | the getter `z` reads entry 2 |
| `JsUtils.R` | utils.js:14 | `r` reads the same entry as `x` |
| `JsUtils.G` | utils.js:15 | `g` reads the same entry as `y` |
| `JsUtils.B` | utils.js:16 | `b` reads the same entry as `z` |
| `JsUtils.Add` | utils.js:18 | `add` is the C++ vector sum |
| `JsUtils.Sub` | utils.js:19 | `sub` is the C++ difference, and `add` undoes it |
| `JsUtils.Mul` | utils.js:20 | `mul` is the rcl componentwise product |
| `JsUtils.Div` | utils.js:21 | for a divisor without zero entries `mul` undoes `div` |
| `JsUtils.Muls` | utils.js:23 | `muls` is the C++ scaling |
| `JsUtils.Divs` | utils.js:24 | for `t != 0`, `muls(t)` undoes `divs(t)` |
| `JsUtils.Dot` | utils.js:26 | `dot` is the C++ `dot`, in either argument order |
| `JsUtils.Cross` | utils.js:27-31 | `cross` is the C++ `cross`, orthogonal to both arguments |
| `JsUtils.Sqlen` | utils.js:37-39 | `sqlen` is the C++ squared length and is not negative |
| `JsUtils.Len` | utils.js:33-35 | `len` is the non-negative root of `sqlen` |
| `JsUtils.Unit` | utils.js:41 | for a non-zero length, `unit()` is the C++ `unit` and has squared length 1 |
| `JsUtils.Reflect` | utils.js:43-45 | `reflect` is the C++ `reflect` |
| `JsUtils.ReflectInvolution` | utils.js:43-45 | against a unit normal, reflecting twice gives the vector back |
| `JsUtils.Refract` | utils.js:47-54 | `null` exactly when the discriminant is not positive; otherwise the C++ refracted direction, a unit vector against a unit normal |
| `JsUtils.PointAt` | utils.js:57-66 | `pointAt` is the rcl `pointAt`, the origin at `t = 0` |
| `JsUtils.Centered` | utils.js:72-74 | a draw in [0, 1) becomes a coordinate in [-1, 1) |
| `JsUtils.DiskCandidate` | utils.js:82-85 | the disk candidate lies in the plane `z = 0` |
| `JsUtils.RandomInUnitSphere` | utils.js:68-77 | returns the first candidate strictly inside the unit ball, after rejecting every earlier one |
| `JsUtils.RandomInUnitDisk` | utils.js:79-88 | returns the first candidate strictly inside the unit disk, in the plane `z = 0`, after rejecting every earlier one |
| `JsObject.Flip` | object.js:8-14 | `FlipNormal.hit` misses exactly when the wrapped object does, and otherwise returns its record with the normal negated |
| `JsObject.FlipTwice` | object.js:5-14 | wrapping twice in `FlipNormal` gives back the wrapped object's record |
| `JsObject.FlipListable` | object.js:8-14 | a flipped object keeps its hits inside the window and at the same `t` when the far end narrows, as the wrapped object does |
| `JsObject.MediumHit` | object.js:28-50 | for any direction, a zero-length one included: no hit when the boundary is not entered or not left; the span is clamped to the window and to `t >= 0`; a hit lies strictly before the exit, on the ray, with normal (1, 0, 0) and no texture coordinate |
| `JsObject.Scatter` | object.js:39-49 | a scattering point lies inside the span `[t1, t2)`, on the ray, with normal (1, 0, 0) and no texture coordinate |
| `JsObject.ZeroLengthPasses` | object.js:39-41 | a direction of length zero gives a span of length zero, which the scattering distance never falls inside, so the ray passes |
| `JsObject.InsideSpan` | object.js:39-43 | the scattering distance below the span's length gives a `t` inside the span |
| `JsObject.SphereHit` | object.js:64-91 | the raytracer.js sphere's record, with `uv` added from the normal, strictly inside the window |
| `JsObject.UVHitAt` | object.js:73-78 | the record at `t` is the raytracer.js one plus `getSphereUV(normal)` |
| `JsObject.SphereBound` | object.js:93-96 | the rcl sphere box, which holds every point of a sphere with a non-negative radius |
| `JsObject.RectXYHit` | object.js:106-121 | a hit exactly when the ray crosses `z = k` inside the window (ends included) and inside the extents; on the ray and the plane, normal (0, 0, 1), `uv` in [0, 1] |
| `JsObject.RectXZHit` | object.js:136-151 | the same for the plane `y = k`, normal (0, 1, 0) |
| `JsObject.RectYZHit` | object.js:166-181 | the same for the plane `x = k`, normal (1, 0, 0) |
| `JsObject.RectHitsInBoxes` | object.js:106-186 | every point a rectangle reports lies in its own `bbox()` |
| `JsObject.FaceListable` | object.js:5-186 | a face, flipped or not, reports hits inside the window and keeps them when the far end narrows to a point at or beyond them |
| `JsObject.FaceWindow` | object.js:106-181 | a face's hit lies in the window and survives moving the far end anywhere at or beyond it |
| `JsObject.FaceHitInBox` | object.js:5-186 | a face lying inside a box reports only points of that box |
| `JsObject.BoxFaces` | object.js:190-206 | six faces, the odd ones flipped, on the planes `p1.z`, `p0.z`, `p1.y`, `p0.y`, `p1.x`, `p0.x`, all inside the box when `p0 <= p1` |
| `JsObject.BoxBound` | object.js:212-214 | the box spans `pmin` to `pmax` |
| `JsObject.BoxList` | object.js:194-205 | the list holds the six faces in order |
| `JsObject.BoxHitFacts` | object.js:208-210 | a box misses exactly when all six faces miss; otherwise its hit is in the window, in the box, and no later than any face's |
| `JsObject.Least` | object.js:246-254 | `min[j]` starts at `Infinity` and ends at the smallest coordinate of the points |
| `JsObject.Greatest` | object.js:247-254 | `max[j]` starts at `-Infinity` and ends at the largest coordinate |
| `JsObject.Bounds` | object.js:246-256 | the box holds every transformed corner |
| `JsObject.Lows` | object.js:246-254 | the three coordinates of `min` |
| `JsObject.Highs` | object.js:247-254 | the three coordinates of `max` |
| `JsObject.ExtremaStep` | object.js:248-254 | each point of the outer loop lowers `min` and raises `max` |
| `JsObject.Widen` | object.js:250-253 | the inner loop lowers each coordinate of `min` and raises each of `max` to include `p` |
| `JsObject.MappedCorners` | object.js:236-249 | the eight corners of the wrapped box, each transformed to world space |
| `JsObject.Transform.constructor` | object.js:218-257 | the box is the one around the transformed corners of the wrapped object's box |
| `JsObject.Transform.LocalRay` | object.js:264-265 | the origin is mapped as a point and the direction as a normal into the wrapped object's space |
| `JsObject.Transform.HitWith` | object.js:263-271 | `null` exactly when the wrapped object misses; otherwise the same `t` and `uv`, the point brought back, and the normal `v3.unit(v3.transformNormal(normal, this.transform))`: unit length, and scaled by the length of the carried-back child normal it is that vector |
| `JsObject.TransformBoxHoldsCorners` | object.js:233-256 | the transformed box holds every transformed corner of the wrapped box |
| `JsRaytracer.Back` | raytracer.js:12 | the camera's `w` is a unit vector |
| `JsRaytracer.LengthNonZero` | raytracer.js:12-13 | only the zero vector has length zero, so `unit()` is defined for every other |
| `JsRaytracer.MakeCamera` | raytracer.js:5-23 | the lens radius is half the aperture; `u`, `v`, `w` are an orthonormal basis with `w` pointing back at the viewer, `u` across `vup` and `v = w x u`; the horizontal and vertical spans follow the field of view, and the lower left corner places the viewport's centre `focusDist` along `-w` from the eye |
| `JsRaytracer.CameraBasis` | raytracer.js:12-14 | `u = unit(vup x w)` and `v = w x u` are unit vectors orthogonal to each other and to `w`, with `u` orthogonal to `vup` |
| `JsRaytracer.ViewportCentre` | raytracer.js:16-22 | the lower left corner plus half of `horizontal` and half of `vertical` is `focusDist` along `-w` from the eye |
| `JsRaytracer.UnitAcross` | raytracer.js:13 | `u` is orthogonal to `vup` and to `w` |
| `JsRaytracer.DividedOrthogonal` | raytracer.js:13 | dividing a vector by its length keeps it orthogonal to what it was orthogonal to |
| `JsRaytracer.OrthonormalCross` | raytracer.js:14 | `v = w x u` is a unit vector |
| `JsRaytracer.GetRay` | raytracer.js:25-31 | the ray leaves the lens point and passes through the requested point of the focus plane at `t = 1`; a pinhole camera shoots from its origin |
| `JsRaytracer.Lambertian` | raytracer.js:42-47 | never absorbs; leaves from the hit point along `normal + sample` with the albedo |
| `JsRaytracer.MetalFuzz` | raytracer.js:51-54 | the fuzz is `Math.min(1, fuzz)` |
| `JsRaytracer.Metal` | raytracer.js:56-65 | `null` exactly when the fuzzed reflection does not leave on the normal's side; otherwise a ray from the hit point with the albedo |
| `JsRaytracer.Schlick` | raytracer.js:73-77 | the same reflectance as rcl/texture.h, a probability for a cosine in [0, 1] and a positive index |
| `JsRaytracer.SchlickInUnit` | raytracer.js:73-77 | for a cosine in [0, 1] and a positive index the reflectance is in [0, 1] |
| `JsRaytracer.Sides` | raytracer.js:81-90 | the outward normal faces against the ray; leaving takes `ri` and the negated normal, entering `1 / ri` and the normal; the cosine is not negative for a positive index |
| `JsRaytracer.Dielectric` | raytracer.js:79-101 | never `null`, white, from the hit point; reflects when refraction fails or the draw is below the reflectance, and refracts otherwise |
| `JsRaytracer.DielectricEntering` | raytracer.js:82-91 | entering a denser medium refraction never fails |
| `JsRaytracer.DiscriminantPositive` | raytracer.js:88-91 | a ratio in (0, 1) gives a positive discriminant |
| `JsRaytracer.SphereHit` | raytracer.js:111-132 | no hit without a positive discriminant; else the nearer root strictly inside the window, else the farther one, else `null` |
| `JsRaytracer.SphereHitAt` | raytracer.js:120-122 | the record lies on the ray at `t`, and its normal scaled by the radius leads from the centre to the point |
| `JsRaytracer.SphereHitNearest` | raytracer.js:111-132 | with a root strictly inside the window the sphere reports a hit no later than it |
| `JsRaytracer.HitListHit` | raytracer.js:136-147 | the loop leaves `bestHit` equal to the scan of the children, each asked with the window closed at the best `t` so far |
| `JsRaytracer.ScanMisses` | raytracer.js:136-147 | the list misses exactly when every child misses the whole window |
| `JsRaytracer.ScanNearest` | raytracer.js:136-147 | with children that keep to their windows, the list's hit is in the window and no later than any child's hit |
| `JsRaytracer.ScanWithin` | raytracer.js:136-147 | a hit of the list lies in the window |
| `JsRaytracer.ScanKeeps` | raytracer.js:136-147 | a property all the children's hits have, the list's hit has |
| `JsRaytracer.SphereIsListable` | raytracer.js:111-132 | the sphere keeps to its window and keeps its nearest hit when the far end narrows |
| `JsRaytracer.SphereNarrows` | raytracer.js:111-132 | narrowing the far end past the hit keeps a hit no later than it |
| `JsRaytracer.Scan` | raytracer.js:136-147 | the list's hit with the window narrowed at each best hit; `ScanMisses`, `ScanNearest`, `ScanWithin` and `ScanKeeps` state its meaning |
| `JsTexture.ConstantIgnoresArguments` | texture.js:6-11 | a constant texture gives its colour wherever it is looked up |
| `JsTexture.CheckerPicks` | texture.js:13-23 | the checker shows `odd` exactly where the sine product is negative and `even` elsewhere, zero included |
| `JsTexture.NoiseIsGrey` | texture.js:31-36 | the noise texture is a grey, in [0, 1] when `sin` stays in [-1, 1] |
| `JsTexture.ValueIgnoresUv` | texture.js:6-36 | a lookup gives the same colour for any `u` and `v`, through any nesting of checkers |
| `JsTexture.ValueFromLeaves` | texture.js:6-36 | every lookup shows the colour of one leaf of the texture: a constant texture's colour, or a grey from a noise texture |
| `JsTexture.ValueInUnit` | texture.js:6-36 | a texture built from colours in [0, 1] gives colours in [0, 1] |
| `JsTexture.Lambertian` | texture.js:46-53 | the raytracer.js Lambertian with the albedo looked up at `(0, 0, p)`; never `null` |
| `JsTexture.Metal` | texture.js:56-75 | the raytracer.js Metal with the clamped fuzz and the looked-up albedo; `null` exactly when the fuzzed reflection does not leave on the normal's side |
| `JsTexture.Schlick` | texture.js:82-86 | the raytracer.js reflectance, in [0, 1] for a cosine in [0, 1] and a positive index |
| `JsTexture.Dielectric` | texture.js:88-112 | the raytracer.js Dielectric: never `null`, white, reflecting whenever refraction fails |
| `JsTexture.Value` | texture.js:6-36 | the colour of a constant, checker or noise texture; `ValueIgnoresUv` shows that no texture reads `u` or `v`, `ValueFromLeaves` that every lookup shows a constant's colour or a noise grey from the texture's leaves, and `ValueInUnit` that colours in [0, 1] stay there |
| `JsWorker.UnitCoordinate` | worker.js:19-23 | a coordinate of a unit vector lies in [-1, 1] |
| `JsWorker.SkyBlend` | worker.js:22-23 | the blend factor `0.5 * (unitDirection.y + 1)` lies in [0, 1] |
| `JsWorker.Color` | worker.js:16-27 | on a hit, twice the colour minus white is the normal, and a unit normal gives channels in [0, 1]; on a miss, the white-to-sky blend, with red in [0.5, 1], green in [0.7, 1] and blue 1 |
| `JsWorker.ViewRay` | worker.js:30-47 | the ray leaves the origin, reaches the requested point of the screen at `t = 1`, and always points one unit into the screen, so it is never zero |
| `JsWorker.Channel` | worker.js:51-54 | the clamped array stores each channel in [0, 255], alpha 255 |
| `JsWorker.Image` | worker.js:29-57 | the buffer the loops fill holds `width * height * 4` bytes |
| `JsWorker.ImagePixel` | worker.js:40-56 | whatever the pixel colours, tile pixel `(i, j)` takes the four bytes from `((height - 1 - j) * width + i) * 4`, inside the buffer |
| `JsWorker.Bytes` | worker.js:29-57 | the buffer holds `width * height * 4` bytes |
| `JsWorker.PixelBytes` | worker.js:40-56 | tile pixel `(i, j)` takes the four bytes from `((height - 1 - j) * width + i) * 4`: its clamped colour channels, then 255 |
| `JsWorker.AlphaOpaque` | worker.js:51-54 | every byte is in [0, 255], and every fourth one is 255 |
| `JsWorker.WritePixel` | worker.js:51-54 | the four bytes from the cursor take the pixel's channels, the cursor moves by four, and nothing else changes |
| `JsWorker.Fill` | worker.js:40-56 | the two loops and the cursor write every byte of the buffer once, leaving it equal to `Image` of the pixel colours |
| `JsWorker.Render` | worker.js:29-57 | `render` leaves the buffer equal to `Bytes` |
| `JsWorker.Work` | worker.js:59-63 | `work` allocates a zeroed buffer of the tile's size and fills it by `render` |
| `Beanstalk.Split` | bs.js:9 | `split` gives at least one piece, and no piece holds the separator |
| `Beanstalk.JoinSplit` | bs.js:9 | joining the pieces of a split with the separator gives the string back |
| `Beanstalk.SplitNoSeparator` | bs.js:80 | a string without the separator splits into itself alone |
| `Beanstalk.SplitAt` | bs.js:80 | splitting at a separator splits the two sides independently |
| `Beanstalk.SplitJoin` | bs.js:9 | splitting a join of pieces without the separator gives the pieces back |
| `Beanstalk.Substring` | bs.js:8-9 | `substring` of in-range ends is the slice, and never longer than the string |
| `Beanstalk.IndexOf` | bs.js:19-20 | `indexOf` finds the first position of the character, and finds nothing (`-1`) exactly when it is absent |
| `Beanstalk.FindCrlf` | bs.js:73-76 | `indexOf('\r\n')` finds the first `\r\n`, and none before it |
| `Beanstalk.FindCrlfExtends` | bs.js:53-73 | appending text keeps the first `\r\n` where it was |
| `Beanstalk.FindCrlfAfter` | bs.js:73 | a header without a line feed, then `\r\n`, ends where the header does |
| `Beanstalk.Decimal` | bs.js:119 | `${data.length}` is a non-empty string of digits that reads back as the length |
| `Beanstalk.DigitsAreText` | bs.js:119 | a decimal number holds no space and no line break, so it stays one word |
| `Beanstalk.Size` | bs.js:84 | `Number(token)` of a string of digits is its value |
| `Beanstalk.HeaderTest` | bs.js:8 | `substring(0, 4) != "---\n"` is a prefix test |
| `Beanstalk.ParseYamlList` | bs.js:7-11 | text without the header comes back unchanged, and only such text |
| `Beanstalk.Undash` | bs.js:10 | every line loses its first two characters |
| `Beanstalk.Dashed` | bs.js:7-11 | the lines beanstalkd sends are `- item` |
| `Beanstalk.ListTextJoined` | bs.js:9 | the list text is the dashed items joined by line feeds, plus a final line feed |
| `Beanstalk.ListLines` | bs.js:9 | the text between the header and the last line feed splits into the dashed items |
| `Beanstalk.ListRoundTrip` | bs.js:7-11 | a non-empty list of items without line feeds parses back from the text beanstalkd sends for it |
| `Beanstalk.UndashDashed` | bs.js:10 | dropping the dashes gives the items back |
| `Beanstalk.Undashed` | bs.js:10 | `substring(2)` of `- item` is the item |
| `Beanstalk.HeaderOnlyList` | bs.js:7-11 | the header alone parses as two empty items, not as the empty list |
| `Beanstalk.LeadingDigits` | bs.js:23 | the digits `parseInt` reads stop at the first non-digit |
| `Beanstalk.ParseInt` | bs.js:23 | `parseInt` is `NaN` exactly when no digit follows the optional sign |
| `Beanstalk.ValueCases` | bs.js:23 | a count reads as its value, a word stays text, and the empty value is `NaN` |
| `Beanstalk.Entry` | bs.js:18-23 | a line without `:` is skipped; otherwise the key is the text before the first `:` |
| `Beanstalk.EntryRoundTrip` | bs.js:19-23 | `key: value` with a key without `:` reads back as that key and value |
| `Beanstalk.FoldKeyStep` | bs.js:17-24 | one more line adds its key, if it has one |
| `Beanstalk.FoldKeys` | bs.js:15-26 | a key is in the dictionary exactly when some line gives it |
| `Beanstalk.FoldLast` | bs.js:23 | a key's value comes from the last line that gives it |
| `Beanstalk.FoldStep` | bs.js:17-24 | one more turn of the loop sets the line's key, if it has one |
| `Beanstalk.ParseYamlDict` | bs.js:13-27 | text without the header comes back unchanged; otherwise the loop leaves the fold of the lines after the header |
| `Beanstalk.Settle` | bs.js:99-112 | the error words reject with the response and are checked first; the good word resolves with the words after it; anything else is invalid |
| `Beanstalk.Step` | bs.js:55-88 | a turn that goes ahead shortens the buffer; a complete response goes to the oldest callback and removes it; a turn throws only when no callback waits |
| `Beanstalk.IncompleteWaits` | bs.js:55-76 | a payload still short of its size plus two, or a header without `\r\n`, changes nothing and calls nothing |
| `Beanstalk.FifoPrepend` | bs.js:67-86 | calling the oldest callback before a FIFO rest keeps FIFO order |
| `Beanstalk.RunFifo` | bs.js:67-86 | callbacks are called oldest first, each at most once, and the rest still wait |
| `Beanstalk.CallsHaveWords` | bs.js:67-86 | every callback receives at least one word |
| `Beanstalk.PayloadConsumed` | bs.js:59-70 | a payload is its `size` characters; the two after it are dropped even when they are not `\r\n`; the oldest callback gets the header's words and the data |
| `Beanstalk.StepAppend` | bs.js:53-88 | appending text does not change a turn that went ahead |
| `Beanstalk.PayloadStepAppend` | bs.js:56-70 | the same for a payload turn |
| `Beanstalk.HeaderStepAppend` | bs.js:73-87 | the same for a header turn |
| `Beanstalk.RunNext` | bs.js:55-88 | a turn that goes ahead is followed by the rest of the loop |
| `Beanstalk.ContinuePrepend` | bs.js:52-89 | reading more after a call is the call, then reading more |
| `Beanstalk.RunNextAppended` | bs.js:52-89 | with text appended, a turn that went ahead is still followed by the rest of the loop |
| `Beanstalk.ChunkingInvariant` | bs.js:52-89 | where the stream is cut into messages does not matter: reading two chunks calls the same callbacks in the same order and ends in the same state as reading them at once, unless the first reading threw |
| `Beanstalk.HeaderRoundTrip` | bs.js:73-87 | a framed header without a payload is read back as its words and handed to the oldest callback |
| `Beanstalk.PayloadHeaderStep` | bs.js:78-84 | the header of a framed payload records the request's words and waits for the payload's length |
| `Beanstalk.PayloadDataStep` | bs.js:56-70 | a complete payload followed by `\r\n` goes to the oldest callback |
| `Beanstalk.PayloadRoundTrip` | bs.js:55-88 | a framed payload response is read back as the request's words plus the data, under either test for an awaited payload (as written: for a non-empty payload) |
| `Beanstalk.SendRoundTrip` | bs.js:116-123 | as written, `_send`'s framing of a non-empty payload reads back as the request's words plus the data |
| `Beanstalk.IntendedRoundTrip` | bs.js:116-123 | with the intended framing and test, every payload round-trips, the empty one included |
| `Beanstalk.EmptyPayloadUnframed` | bs.js:118-121 | as written, an empty payload is sent without its length, and reading that calls no callback |
| `Beanstalk.EmptyPayloadMisread` | bs.js:56-84 | as written, an empty payload announced as length 0 is misread: its `\r\n` is taken for an empty header and the oldest callback gets `[""]` |
| `Beanstalk.EmptyHeaderStep` | bs.js:73-86 | a bare `\r\n` with no size awaited is an empty header |
| `Beanstalk.EmptyOkMisread` | bs.js:56-84 | the smallest such input, `OK 0\r\n\r\n`, is misread |
| `Beanstalk.EmptyOkFramed` | bs.js:119 | the intended framing of an empty `OK` payload is `OK 0\r\n\r\n` |
| `Beanstalk.OkIsPayloadCommand` | bs.js:5 | `OK` is a payload command |
| `Beanstalk.PayloadStepped` | bs.js:56-70 | a complete payload calls the oldest callback with the header's words and the data and clears the wait |
| `Beanstalk.PayloadThrows` | bs.js:67 | a complete payload with no callback waiting throws after it was consumed |
| `Beanstalk.PayloadHeaderTurn` | bs.js:82-84 | a payload header keeps its words without the last, and waits for the size the last announces |
| `Beanstalk.PayloadHeaderIs` | bs.js:78-84 | the turn of a payload header calls nothing |
| `Beanstalk.HeaderStepped` | bs.js:78-87 | any other header calls the oldest callback with its words |
| `Beanstalk.HeaderThrows` | bs.js:86 | any other header with no callback waiting throws |
| `Beanstalk.Waits` | bs.js:55-76 | incomplete input, or none, ends the loop where it is |
| `Beanstalk.Client.constructor` | bs.js:30-50 | not connected, an empty buffer, nothing waiting |
| `Beanstalk.Client.SetConnected` | bs.js:36-44 | the socket events set `connected` and change nothing else |
| `Beanstalk.Client.Send` | bs.js:116-123 | nothing is sent when disconnected; a non-empty payload is sent framed with its length; a command without data or with empty data is sent as the header line `msg\r\n` alone |
| `Beanstalk.Client.Buildr` | bs.js:96-114 | when connected one more callback waits at the back; otherwise nothing changes |
| `Beanstalk.Client.Turn` | bs.js:55-88 | one turn of the listener's loop shortens the buffer or ends the loop, and does not change its outcome |
| `Beanstalk.Client.PayloadTurn` | bs.js:56-71 | the turn while a payload is awaited |
| `Beanstalk.Client.HeaderTurn` | bs.js:73-87 | the turn that reads a header line |
| `Beanstalk.Client.LineTurn` | bs.js:77-87 | a complete header line is consumed, so the buffer shrinks, and the outcome of the loop stays the same |
| `Beanstalk.Client.OnMessage` | bs.js:52-89 | the listener appends the chunk and drains the buffer as `Run` says, logging the calls in order |
| `Beanstalk.Frame` | bs.js:116-123 | the text `_send` writes; `SendRoundTrip` states a non-empty payload reads back, `EmptyPayloadUnframed` that an empty one is sent without its length |
| `Beanstalk.FrameIntended` | bs.js:116-123 | the framing meant, with the length for every payload; `IntendedRoundTrip` states every payload reads back |
| `Beanstalk.Run` | bs.js:52-89 | the listener's loop until it waits or throws; `RunFifo`, `CallsHaveWords` and `ChunkingInvariant` state its meaning |
| `Beanstalk.IsNumeric` | bs.js:23 | `!isNaN(v)` on the texts modelled; `ValueCases` states the count, word and empty-value cases |
| `Beanstalk.ValueOf` | bs.js:23 | `isNaN(v) ? v : parseInt(v)`; `ValueCases` states the cases |
| `Broker.Extent` | broker.js:33-34 | `min(WIDTH, x + WORKSIZE) - x` is between 1 and WORKSIZE, never passes the edge, and is short only at the edge |
| `Broker.RowMembers` | broker.js:32-39 | a block is in one row of the loop exactly when it lies on the lattice, on that row, at or right of the start |
| `Broker.RowDistinct` | broker.js:32-39 | a row of the loop pushes no block twice |
| `Broker.GridMembers` | broker.js:31-40 | a block is in the grid exactly when it lies on the lattice at or below the start row |
| `Broker.GridDistinct` | broker.js:31-40 | the grid holds no block twice |
| `Broker.GridEven` | broker.js:31-42 | the grid has an even number of blocks, so `blocks.length / 2` is a whole number of tiles |
| `Broker.RowEven` | broker.js:32-39 | each row pushes its tiles in pairs |
| `Broker.ModStep` | broker.js:32 | stepping by WORKSIZE stays on the lattice |
| `Broker.LatticeGap` | broker.js:31-32 | two lattice points are at least WORKSIZE apart |
| `Broker.PositiveFactor` | broker.js:31-32 | a positive multiple of WORKSIZE is at least one step |
| `Broker.DistinctConcat` | broker.js:31-40 | joining two duplicate-free lists with no common block is duplicate-free |
| `Broker.DistinctOnce` | broker.js:31-40 | a duplicate-free list holds each block once, or not at all |
| `Broker.RoundDown` | broker.js:31-32 | rounding a pixel down to the lattice gives the tile corner at or before it, within one step |
| `Broker.LatticeCell` | broker.js:31-32 | the only lattice point within one step at or before a pixel is its rounded-down corner |
| `Broker.GridCoversOnce` | broker.js:30-42 | every pixel of the image lies in exactly one tile of the preview pass and in exactly one tile of the full pass |
| `Broker.GridBlocks` | broker.js:33-38 | every tile sits on the lattice, measures 1 to WORKSIZE each way, stays inside the image, and comes in both passes |
| `Broker.SquaredDistance` | broker.js:46-51 | the squared distance of a tile's corner plus half a step from the image centre is not negative |
| `Broker.CompareFlip` | broker.js:44-53 | the sort's comparator is antisymmetric |
| `Broker.CompareTransitive` | broker.js:44-53 | the sort's comparator is transitive |
| `Broker.Insert` | broker.js:44-53 | inserting into an ordered list keeps it ordered and adds exactly the block |
| `Broker.InsertFront` | broker.js:44-53 | a block that compares at or before the head can go in front |
| `Broker.PrependOrdered` | broker.js:44-53 | a block at or before every element can go in front |
| `Broker.Sort` | broker.js:44-53 | `blocks.sort` gives a permutation of its input that is ordered by the comparator |
| `Broker.OrderedPasses` | broker.js:44-53 | in the sorted queue every preview tile comes before every full tile, and within a pass the tiles go from the centre outwards |
| `Broker.Record` | broker.js:113-121 | a result is drawn exactly when its slot is empty, holds 0, or holds a lower sampling, and then the slot takes the new sampling; otherwise nothing changes |
| `Broker.RecordMonotone` | broker.js:113-121 | recording never lowers a slot's sampling and never forgets a slot |
| `Broker.Redrawn` | broker.js:108-121 | the tiles drawn along a batch: at most one per result, each carried by a result of the current code |
| `Broker.CheckedMonotone` | broker.js:102-124 | checking any batch of results never lowers what a slot shows |
| `Broker.Broker.constructor` | broker.js:13-28 | the layout is 1012 by 506 pixels in tiles of 5 with 10000 samples, and the queue and the drawn slots start empty |
| `Broker.Broker.SetupWork` | broker.js:30-54 | the queue gains both passes of the grid, ordered by the comparator, and `total` is half its length |
| `Broker.Broker.PushGrid` | broker.js:31-40 | the loops append the grid to the queue |
| `Broker.Broker.SortBlocks` | broker.js:44-53 | the queue becomes an ordered permutation of itself |
| `Broker.Broker.PushRow` | broker.js:32-39 | the inner loop appends one row |
| `Broker.Broker.ServerCheck` | broker.js:102-124 | the drawn slots become the fold of `Record` over the results whose code hash matches, others are deleted unseen, and the canvas log gains exactly the tiles `Redrawn` lists, in order |
| `Broker.Broker.ClientGetJob` | broker.js:127-131 | in single mode, the front of the queue is handed out as job 0, or nothing when the queue is empty |
| `Broker.SetupWorkQueue` | broker.js:30-54 | after setup, the queue covers every pixel exactly once per pass, and holds the two passes in equal number |
| `Broker.Compare` | broker.js:44-53 | the sort comparator: sampling first, then distance from the centre; `CompareFlip` and `CompareTransitive` state it orders blocks |

## Left out

- Floating point: every `float`, `double` and JavaScript number is a `real`. Rounding, infinities and `NaN` are not modelled, so a division by zero that would give an infinity or `NaN` is a precondition instead (`CoreVector3.Div`, `CoreEFloat.Div`, `RclVec3.DivScalar` and their kin), except where noted below.
- `RclObjects.RectXYHit`, `RclObjects.RectXZHit`, `RclObjects.RectYZHit`, `JsObject.RectXYHit`, `JsObject.RectXZHit` and `JsObject.RectYZHit`: a ray with a zero direction component across the plane is a miss, not a precondition. For a ray off the plane the source computes an infinite `t` that the window rejects, so it agrees; for a ray lying in the plane it computes `t = 0 / 0 = NaN`, every comparison with `NaN` is false, and the source reports a hit with `t = NaN` that the model does not.
- `FloatUp`, `FloatDown` and `FloatToBits` are not part of this model; `EFloat` takes a rounding pair constrained only by `down(x) <= x <= up(x)`. The debug-only `precise` field of `EFloat` and its `HasNaNs` checks are left out.
- Square root, sine, cosine, tangent, `pow` with a non-integer exponent and logarithm are parameters with only the facts the code relies on; the sphere root formula, `M * Inverse(M) == I` for a general `M` and the length preservation of rotations are not proved.
- Random numbers are parameters; the distributions of the rejection loops and of `frand` are not modelled.
- `AABB::BoundingSphere` (src/core/AABB.h:116-120) is left out: it needs a square root of a length and states nothing beyond it.
- `CoreMatrix4.LookAt` is modelled as written, and its `CHECK` on the normalised direction makes it return no matrix for every non-degenerate input; the matrix it would otherwise build is not modelled.
- Image encoding and file output (the PFM, PBM, EXR and PNG writers through lodepng and tinyexr, src/core/Film.cc:31-158) are left out; only the quantisation, the byte layout and the extension dispatch are kept.
- `LoaderLoader.SplitKey`: reading the YAML document (yaml-cpp) is not part of this model; `LoadScene` is kept only as the key split it performs on each top-level key, whose result the source discards.
- `LoaderParser` works on a `Node` value standing for a yaml-cpp node; `error`, which exits the process, is a `Fail` outcome carrying its message.
- The `element` pointer of a hit, material pointers and the scene graph around shapes are not modelled.
- `RclVec3`: the copy constructor of the `rcl` `vec3` copies its reference members `x`, `y`, `z`; the model treats `vec3` as a value with three components and does not model that aliasing.
- The `rcl` `HitList`, `AABB` and BVH declarations that `rcl/objects.h` relies on are not part of this model; `Box` is modelled as its six faces and its box, not through the list's `hit`.
- `randomInUnitSphere` of rcl/utils.h is not part of this model; the sample it would give is a parameter of the materials.
- `getSphereUV`, `Mat4` and the JavaScript `v3` helpers are not part of this model: in `JsObject.Transform` the matrix and its inverse are given as functions, so the composition of a transform with its inverse is not modelled.
- The scenes (scene.js, rcl/scene.h) and the fixed two-sphere world of worker.js are not modelled; the world is a parameter.
- The message handlers of worker.js and worker_rcl.js, `postMessage`, and worker_rcl.js's heap copying are left out as I/O.
- `Beanstalk`: the WebSocket events, the promises and the request commands built on `_send` and `_buildr` (bs.js:125-271) are left out as I/O; `Beanstalk.Client.OnMessage` records the callbacks it would call instead of calling them, and `console.log` on a payload without its `\r\n` is not modelled.
- `Beanstalk.Client.Send`: the announced length is the number of characters of the payload; that JavaScript counts UTF-16 units while beanstalkd counts bytes is not modelled.
- `Beanstalk.ParseYamlList` is stated as written: the header alone reads as two empty items (`Beanstalk.HeaderOnlyList`), not as an empty list.
- `Beanstalk.ParseInt` models `parseInt` on decimal digits after an optional sign; leading white space, `0x` prefixes, `Infinity` and exponents are not modelled.
- `Beanstalk.IsNumeric` does not accept exponent notation: `Number("1e3")` is 1000, so `isNaN` is false and `parseInt` gives 1, while the model keeps `Text("1e3")`; beanstalkd's YAML replies carry plain decimal counts.
- `Broker`: canvas drawing, image decoding, `setInterval` polling, the worker pool (`updateWorkers`, `onMessage`, `createWorkers`), `serverSetJobs`, `clearTube` and `main` are left out as browser and network plumbing; the client-mode branch of `clientGetJob` reserves from the queue server and is left out with it.
- `Broker.Sort` stands for `Array.prototype.sort`: it is an ordered permutation under the comparator, which the comparator's total order makes unique up to blocks that compare equal; which order the engine gives those is not modelled.
- `RclPerlin.GeneratePerlin` requires that no draw is exactly the centre of the unit cube, where normalising a zero vector gives `NaN` in the source.
- Integer widths: pixel indices, sizes and counters are unbounded integers; 32-bit overflow is not modelled except where it decides behaviour (`std::string::npos` stored in an `int` in `LoaderLoader.ToInt`, the `unsigned char` and `Uint8ClampedArray` conversions of the byte buffers).
- The declaration-only headers (Shape.h, Element.h, Hit.h, Ray.h, Scene.h, Integrator.h, Loader.h, parser.h) only give datatypes their shape; code in them and in src/core/AABB.cc, Element.cc and Scene.cc that does not compile as shown is not modelled.
- The test programs (src/tests, tools) and process entry points are not modelled; expectations in src/tests that contradict the code are not used as properties.

## Findings

| source | as written | input that shows it | evidently intended | confidence | as-written member | corrected member |
|---|---|---|---|---|---|---|
| src/core/AABB.h:81-88 | `Union` builds its result with the sorting two-point constructor, so the union of two empty boxes (`+Max`, `-Max`) is re-sorted into the box covering all of space | `Union(AABB(), AABB())` | the union of two empty boxes stays empty | not executed | `CoreAABB.UnionOfEmptiesIsWholeSpace` | `CoreAABB.UnionKeepingEmpty` |
| src/core/Matrix4.h:94-99 | `w` is `(... ) \|\| 1.0`, a boolean that is always true, so the point is never divided by the homogeneous coordinate | the identity scaled by 2 applied to `(1, 1, 1)` gives `(2, 2, 2)` | divide by `w` when it is non-zero | not executed | `CoreMatrix4.TransformIgnoresW` | `CoreMatrix4.TransformPointScaleInvariant` |
| src/core/EFloat.h:81-89 | `operator-` subtracts low from low and high from high, which can leave `low > high` | `[0, 0] - [0, 10]` gives `[0, -10]` | `[low - o.high, high - o.low]` | not executed | `CoreEFloat.SubInverts` | `CoreEFloat.SubEnclosing` |
| src/core/EFloat.h:91-102 | `operator*` assigns `r.low` twice and never sets `r.high`, which stays 0 | `[1, 1] * [2, 2]` gives `[2, 0]` | the high end is the largest corner product | not executed | `CoreEFloat.MulLosesHigh` | `CoreEFloat.MulEnclosing` |
| src/core/EFloat.h:104-120 | `operator/` assigns `r.low` twice and never sets `r.high`, which stays 0 | `[2, 2] / [1, 1]` gives `[2, 0]` | the high end is the largest corner quotient | not executed | `CoreEFloat.DivLosesHigh` | `CoreEFloat.DivEnclosing` |
| rcl/perlin.h:11 | `int(frand() * (i + 1))`, and `frand` (rcl/utils.h:7) returns exactly 1 when `rand()` returns `RAND_MAX`, giving the target `i + 1` | a first draw of 1.0 swaps `ret[n - 1]` with `ret[n]`, one past the end | a target in `[0, i]` for every draw | not executed | `RclPerlin.TargetOnePastEnd` | `RclPerlin.SwapTarget` |
| bs.js:118 | `if (data)` treats the empty payload as absent, so `_send("OK", "")` sends `OK\r\n` without a length; and the reader waits for a payload only when the announced size is non-zero (bs.js:56), so a response announcing length 0 has its empty payload's `\r\n` taken for an empty header | an empty payload, and the response `OK 0\r\n\r\n` | the empty payload is framed and read back like any other | not executed | `Beanstalk.EmptyPayloadUnframed`, `Beanstalk.EmptyOkMisread` | `Beanstalk.IntendedRoundTrip` |
| src/shapes/Sphere.cc:9-19 | `Bound` is `[-r, r]` around the origin while `Intersect` intersects the sphere centred at `(0, 0, -1)` | radius 1: the point `(0, 0, -2)` is on the intersected sphere but outside `Bound()` | the bound is centred where the sphere is intersected | not executed | `ShapesSphere.BoundMissesSphere` | `ShapesSphere.CentredBoundContainsSphere` |
