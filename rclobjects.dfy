/** rcl/objects.h: the shapes of the WebAssembly port. Their `hit` methods are
  * functions of the ray and the window `[minT, maxT]`, and return `NoHit` on a
  * miss. The rcl AABB, HitList, mat4 and getSphereUV declarations are not part
  * of this model: a box is its two corners as given, the matrix functions are
  * those of src/core/mat4.h, and the sphere's texture coordinates are a
  * parameter. */
module RclObjects {
  import opened Numerics
  import opened CoreMath
  import opened RclVec3
  import opened RclRaytracer
  import V = CoreVector3
  import M = CoreMatrix4
  import CoreMat4
  import ShapesSphere

  /** `AABB(min, max)`, stored as given. */
  datatype Box = AABB(min: Vector3, max: Vector3)

  predicate InBox(b: Box, p: Vector3) {
    b.min.x <= p.x <= b.max.x && b.min.y <= p.y <= b.max.y && b.min.z <= p.z <= b.max.z
  }

  /** The half-thickness the rectangles give their boxes on the fixed axis. */
  const Slab: real := 0.0001

  // ------------------------------------------------------------ FlipNormals

  /** `FlipNormals::hit`: the child's hit with the normal negated when it was
    * found, and the child's `NoHit` otherwise. */
  function Flip(h: Hit): (r: Hit)
    ensures Found(r) <==> Found(h)
    ensures Found(h) ==> r == h.(normal := Neg(h.normal))
    ensures !Found(h) ==> r == h
  {
    if Found(h) then h.(normal := Neg(h.normal)) else h
  }

  /** Flipping twice restores the hit. */
  lemma FlipTwice(h: Hit)
    ensures Flip(Flip(h)) == h
  {
  }

  // ------------------------------------------------------------ rectangles

  /** `(a - lo) / (hi - lo)` of a point between `lo` and `hi` lies in [0, 1]. */
  lemma Fraction(a: real, lo: real, hi: real)
    requires lo < hi && lo <= a <= hi
    ensures 0.0 <= (a - lo) / (hi - lo) <= 1.0
  {
    var d := hi - lo;
    ShapesSphere.DivideOrdered(0.0, a - lo, d);
    ShapesSphere.DivideOrdered(a - lo, d, d);
    SelfRatio(d);
  }

  lemma SelfRatio(d: real)
    requires d != 0.0
    ensures d / d == 1.0
  {
  }

  /** The texture coordinate `a / b`. Float division makes `0 / 0` (a rectangle
    * of zero width) NaN; the model gives 0 there. */
  function Ratio(a: real, b: real): real {
    if b == 0.0 then 0.0 else a / b
  }

  /** The plane parameter `(k - o) / d`. The source divides without a check:
    * a ray parallel to the plane and off it gets an infinite `t`, which the
    * window rejects, so it misses there as here; a ray lying in the plane gets
    * `0 / 0 = NaN`, which every rejecting comparison lets through, so the
    * source reports a hit with `t = NaN` where the model reports none. */
  function PlaneT(k: real, o: real, d: real): real
    requires d != 0.0
  {
    (k - o) / d
  }

  /** `RectXY::hit`: the ray meets the plane `z = k` at `t`, inside the window
    * (both ends included) and inside `[x0, x1] x [y0, y1]`. */
  function RectXYHit(x0: real, x1: real, y0: real, y1: real, k: real, r: Ray, minT: real, maxT: real): (h: Hit)
    ensures !Found(h) ==> h == NoHit
    ensures Found(h) <==> (r.direction.z != 0.0 && minT <= PlaneT(k, r.origin.z, r.direction.z) <= maxT
      && x0 <= PointAt(r, PlaneT(k, r.origin.z, r.direction.z)).x <= x1
      && y0 <= PointAt(r, PlaneT(k, r.origin.z, r.direction.z)).y <= y1)
    ensures Found(h) ==> h.p == PointAt(r, h.t) && h.p.z == k && h.normal == V.Vector3(0.0, 0.0, 1.0)
    ensures Found(h) && x0 < x1 && y0 < y1 ==> 0.0 <= h.uv.x <= 1.0 && 0.0 <= h.uv.y <= 1.0 && h.uv.z == 0.0
  {
    if r.direction.z == 0.0 then NoHit
    else
      var t := PlaneT(k, r.origin.z, r.direction.z);
      if t < minT || t > maxT then NoHit
      else
        var x := r.origin.x + t * r.direction.x;
        var y := r.origin.y + t * r.direction.y;
        if x < x0 || x > x1 || y < y0 || y > y1 then
          assert PointAt(r, t).x == x && PointAt(r, t).y == y;
          NoHit
        else
          var h := Hit(t, PointAt(r, t), V.Vector3(0.0, 0.0, 1.0), V.Vector3(Ratio(x - x0, x1 - x0), Ratio(y - y0, y1 - y0), 0.0));
          assert PointAt(r, t).x == x && PointAt(r, t).y == y;
          NonZeroNormalFound(h);
          if x0 < x1 && y0 < y1 then
            Fraction(x, x0, x1);
            Fraction(y, y0, y1);
            h
          else h
  }

  /** `RectXZ::hit`: the plane `y = k`, extents on x and z, normal (0, 1, 0). */
  function RectXZHit(x0: real, x1: real, z0: real, z1: real, k: real, r: Ray, minT: real, maxT: real): (h: Hit)
    ensures !Found(h) ==> h == NoHit
    ensures Found(h) <==> (r.direction.y != 0.0 && minT <= PlaneT(k, r.origin.y, r.direction.y) <= maxT
      && x0 <= PointAt(r, PlaneT(k, r.origin.y, r.direction.y)).x <= x1
      && z0 <= PointAt(r, PlaneT(k, r.origin.y, r.direction.y)).z <= z1)
    ensures Found(h) ==> h.p == PointAt(r, h.t) && h.p.y == k && h.normal == V.Vector3(0.0, 1.0, 0.0)
    ensures Found(h) && x0 < x1 && z0 < z1 ==> 0.0 <= h.uv.x <= 1.0 && 0.0 <= h.uv.y <= 1.0 && h.uv.z == 0.0
  {
    if r.direction.y == 0.0 then NoHit
    else
      var t := PlaneT(k, r.origin.y, r.direction.y);
      if t < minT || t > maxT then NoHit
      else
        var x := r.origin.x + t * r.direction.x;
        var z := r.origin.z + t * r.direction.z;
        if x < x0 || x > x1 || z < z0 || z > z1 then
          assert PointAt(r, t).x == x && PointAt(r, t).z == z;
          NoHit
        else
          var h := Hit(t, PointAt(r, t), V.Vector3(0.0, 1.0, 0.0), V.Vector3(Ratio(x - x0, x1 - x0), Ratio(z - z0, z1 - z0), 0.0));
          assert PointAt(r, t).x == x && PointAt(r, t).z == z;
          NonZeroNormalFound(h);
          if x0 < x1 && z0 < z1 then
            Fraction(x, x0, x1);
            Fraction(z, z0, z1);
            h
          else h
  }

  /** `RectYZ::hit`: the plane `x = k`, extents on y and z, normal (1, 0, 0). */
  function RectYZHit(y0: real, y1: real, z0: real, z1: real, k: real, r: Ray, minT: real, maxT: real): (h: Hit)
    ensures !Found(h) ==> h == NoHit
    ensures Found(h) <==> (r.direction.x != 0.0 && minT <= PlaneT(k, r.origin.x, r.direction.x) <= maxT
      && y0 <= PointAt(r, PlaneT(k, r.origin.x, r.direction.x)).y <= y1
      && z0 <= PointAt(r, PlaneT(k, r.origin.x, r.direction.x)).z <= z1)
    ensures Found(h) ==> h.p == PointAt(r, h.t) && h.p.x == k && h.normal == V.Vector3(1.0, 0.0, 0.0)
    ensures Found(h) && y0 < y1 && z0 < z1 ==> 0.0 <= h.uv.x <= 1.0 && 0.0 <= h.uv.y <= 1.0 && h.uv.z == 0.0
  {
    if r.direction.x == 0.0 then NoHit
    else
      var t := PlaneT(k, r.origin.x, r.direction.x);
      if t < minT || t > maxT then NoHit
      else
        var y := r.origin.y + t * r.direction.y;
        var z := r.origin.z + t * r.direction.z;
        if y < y0 || y > y1 || z < z0 || z > z1 then
          assert PointAt(r, t).y == y && PointAt(r, t).z == z;
          NoHit
        else
          var h := Hit(t, PointAt(r, t), V.Vector3(1.0, 0.0, 0.0), V.Vector3(Ratio(y - y0, y1 - y0), Ratio(z - z0, z1 - z0), 0.0));
          assert PointAt(r, t).y == y && PointAt(r, t).z == z;
          NonZeroNormalFound(h);
          if y0 < y1 && z0 < z1 then
            Fraction(y, y0, y1);
            Fraction(z, z0, z1);
            h
          else h
  }

  /** The rectangles' `bbox()`: the extents, thickened by `Slab` on the fixed
    * axis only. */
  function RectXYBox(x0: real, x1: real, y0: real, y1: real, k: real): (b: Box)
    ensures b.min.z == k - Slab && b.max.z == k + Slab
  {
    AABB(V.Vector3(x0, y0, k - Slab), V.Vector3(x1, y1, k + Slab))
  }

  function RectXZBox(x0: real, x1: real, z0: real, z1: real, k: real): (b: Box)
    ensures b.min.y == k - Slab && b.max.y == k + Slab
  {
    AABB(V.Vector3(x0, k - Slab, z0), V.Vector3(x1, k + Slab, z1))
  }

  function RectYZBox(y0: real, y1: real, z0: real, z1: real, k: real): (b: Box)
    ensures b.min.x == k - Slab && b.max.x == k + Slab
  {
    AABB(V.Vector3(k - Slab, y0, z0), V.Vector3(k + Slab, y1, z1))
  }

  /** Every point a rectangle reports lies in its box. */
  lemma RectHitsInBoxes(x0: real, x1: real, y0: real, y1: real, k: real, r: Ray, minT: real, maxT: real)
    ensures Found(RectXYHit(x0, x1, y0, y1, k, r, minT, maxT)) ==>
      InBox(RectXYBox(x0, x1, y0, y1, k), RectXYHit(x0, x1, y0, y1, k, r, minT, maxT).p)
    ensures Found(RectXZHit(x0, x1, y0, y1, k, r, minT, maxT)) ==>
      InBox(RectXZBox(x0, x1, y0, y1, k), RectXZHit(x0, x1, y0, y1, k, r, minT, maxT).p)
    ensures Found(RectYZHit(x0, x1, y0, y1, k, r, minT, maxT)) ==>
      InBox(RectYZBox(x0, x1, y0, y1, k), RectYZHit(x0, x1, y0, y1, k, r, minT, maxT).p)
  {
  }

  // ------------------------------------------------------------ Box

  /** The objects a `Box` puts in its list. */
  datatype Face =
    | XY(x0: real, x1: real, y0: real, y1: real, k: real)
    | XZ(x0: real, x1: real, z0: real, z1: real, k: real)
    | YZ(y0: real, y1: real, z0: real, z1: real, k: real)
    | Flipped(face: Face)

  function FaceHit(f: Face, r: Ray, minT: real, maxT: real): Hit {
    match f
    case XY(x0, x1, y0, y1, k) => RectXYHit(x0, x1, y0, y1, k, r, minT, maxT)
    case XZ(x0, x1, z0, z1, k) => RectXZHit(x0, x1, z0, z1, k, r, minT, maxT)
    case YZ(y0, y1, z0, z1, k) => RectYZHit(y0, y1, z0, z1, k, r, minT, maxT)
    case Flipped(g) => Flip(FaceHit(g, r, minT, maxT))
  }

  /** The rectangle's extents and plane lie inside `b`. */
  predicate FaceWithin(f: Face, b: Box) {
    match f
    case XY(x0, x1, y0, y1, k) => b.min.x <= x0 && x1 <= b.max.x && b.min.y <= y0 && y1 <= b.max.y && b.min.z <= k <= b.max.z
    case XZ(x0, x1, z0, z1, k) => b.min.x <= x0 && x1 <= b.max.x && b.min.z <= z0 && z1 <= b.max.z && b.min.y <= k <= b.max.y
    case YZ(y0, y1, z0, z1, k) => b.min.y <= y0 && y1 <= b.max.y && b.min.z <= z0 && z1 <= b.max.z && b.min.x <= k <= b.max.x
    case Flipped(g) => FaceWithin(g, b)
  }

  /** Whether the face is wrapped in `FlipNormals`, and the plane it lies in. */
  function Plane(f: Face): real {
    match f
    case Flipped(g) => Plane(g)
    case _ => f.k
  }

  /** A face inside a box reports only points of the box. */
  lemma {:induction false} FaceHitInBox(f: Face, b: Box, r: Ray, minT: real, maxT: real)
    requires FaceWithin(f, b)
    ensures Found(FaceHit(f, r, minT, maxT)) ==> InBox(b, FaceHit(f, r, minT, maxT).p)
  {
    match f
    case Flipped(g) => FaceHitInBox(g, b, r, minT, maxT);
    case _ =>
  }

  /** `Box(p0, p1)`: for each axis the face at `p1`, then the face at `p0`
    * wrapped in `FlipNormals`; the face order is z, y, x. */
  function BoxFaces(p0: Vector3, p1: Vector3): (faces: seq<Face>)
    ensures |faces| == 6
    ensures forall i :: 0 <= i < 6 ==> (faces[i].Flipped? <==> i % 2 == 1)
    ensures Plane(faces[0]) == p1.z && Plane(faces[1]) == p0.z
    ensures Plane(faces[2]) == p1.y && Plane(faces[3]) == p0.y
    ensures Plane(faces[4]) == p1.x && Plane(faces[5]) == p0.x
    ensures p0.x <= p1.x && p0.y <= p1.y && p0.z <= p1.z ==>
      forall i :: 0 <= i < 6 ==> FaceWithin(faces[i], BoxBox(p0, p1))
  {
    [XY(p0.x, p1.x, p0.y, p1.y, p1.z), Flipped(XY(p0.x, p1.x, p0.y, p1.y, p0.z)),
     XZ(p0.x, p1.x, p0.z, p1.z, p1.y), Flipped(XZ(p0.x, p1.x, p0.z, p1.z, p0.y)),
     YZ(p0.y, p1.y, p0.z, p1.z, p1.x), Flipped(YZ(p0.y, p1.y, p0.z, p1.z, p0.x))]
  }

  /** `Box::bbox()`: `AABB(pmin, pmax)`. */
  function BoxBox(p0: Vector3, p1: Vector3): (b: Box)
    ensures b.min == p0 && b.max == p1
  {
    AABB(p0, p1)
  }

  /** Every point any face of a box reports lies in the box. */
  lemma BoxFacesInBox(p0: Vector3, p1: Vector3, i: int, r: Ray, minT: real, maxT: real)
    requires 0 <= i < 6
    requires p0.x <= p1.x && p0.y <= p1.y && p0.z <= p1.z
    ensures Found(FaceHit(BoxFaces(p0, p1)[i], r, minT, maxT)) ==>
      InBox(BoxBox(p0, p1), FaceHit(BoxFaces(p0, p1)[i], r, minT, maxT).p)
  {
    FaceHitInBox(BoxFaces(p0, p1)[i], BoxBox(p0, p1), r, minT, maxT);
  }

  // ------------------------------------------------------------ Sphere

  function SphereA(r: Ray): real { V.Dot(r.direction, r.direction) }
  function SphereB(center: Vector3, r: Ray): real { V.Dot(V.Sub(r.origin, center), r.direction) }
  function SphereC(center: Vector3, radius: real, r: Ray): real {
    V.Dot(V.Sub(r.origin, center), V.Sub(r.origin, center)) - radius * radius
  }

  /** `b * b - a * c`; a positive value needs a non-zero direction and a non-zero
    * radius. */
  function SphereDisc(center: Vector3, radius: real, r: Ray): (disc: real)
    ensures 0.0 < disc ==> 0.0 < SphereA(r) && radius != 0.0
  {
    var a, b, c := SphereA(r), SphereB(center, r), SphereC(center, radius, r);
    if 0.0 < b * b - a * c then
      SphereDiscFacts(center, radius, r, a, b, c);
      b * b - a * c
    else
      b * b - a * c
  }

  lemma SphereDiscFacts(center: Vector3, radius: real, r: Ray, a: real, b: real, c: real)
    requires a == SphereA(r) && b == SphereB(center, r) && c == SphereC(center, radius, r)
    requires 0.0 < b * b - a * c
    ensures 0.0 < a && radius != 0.0
  {
    var oc := V.Sub(r.origin, center);
    if a == 0.0 {
      ZeroDirection(r.direction, oc);
      ZeroProducts(a, b, c);
      assert false;
    }
    if radius == 0.0 {
      var l := V.LenSq(V.Cross(r.direction, oc));
      assert c == V.Dot(oc, oc);
      V.DotSymmetric(oc, r.direction);
      ShapesSphere.Lagrange(r.direction, oc);
      ShapesSphere.NotPositive(b, a, c, l);
      assert false;
    }
  }

  lemma ZeroProducts(a: real, b: real, c: real)
    requires a == 0.0 && b == 0.0
    ensures b * b - a * c == 0.0
  {
  }

  /** A zero direction has a zero dot product with every vector. */
  lemma ZeroDirection(d: Vector3, v: Vector3)
    requires V.LenSq(d) == 0.0
    ensures V.Dot(v, d) == 0.0
  {
    V.ZeroAbsorbs(v, 0.0);
  }

  /** `(-b - sqrt(disc)) / a` for `sign == -1` and `(-b + sqrt(disc)) / a` for
    * `sign == 1`. */
  function SphereRoot(center: Vector3, radius: real, r: Ray, sqrt: real -> real, sign: real): real
    requires IsSqrt(sqrt) && 0.0 < SphereDisc(center, radius, r)
  {
    (-SphereB(center, r) + sign * sqrt(SphereDisc(center, radius, r))) / SphereA(r)
  }

  /** The near root is never beyond the far one. */
  lemma SphereRootsOrdered(center: Vector3, radius: real, r: Ray, sqrt: real -> real)
    requires IsSqrt(sqrt) && 0.0 < SphereDisc(center, radius, r)
    ensures SphereRoot(center, radius, r, sqrt, -1.0) <= SphereRoot(center, radius, r, sqrt, 1.0)
  {
    var b, s := SphereB(center, r), sqrt(SphereDisc(center, radius, r));
    ShapesSphere.DivideOrdered(-b + -1.0 * s, -b + 1.0 * s, SphereA(r));
  }

  /** The hit the sphere reports at `t`: the point on the ray and a normal that,
    * scaled by the radius, leads from the centre to the point. */
  function SphereHitAt(center: Vector3, radius: real, r: Ray, t: real, sphereUV: Vector3 -> Vector3): (h: Hit)
    requires radius != 0.0
    ensures h.t == t && h.p == PointAt(r, t)
    ensures Scale(h.normal, radius) == Sub(h.p, center)
    ensures h.uv == sphereUV(h.normal)
  {
    var rp := PointAt(r, t);
    var normal := DivScalar(Sub(rp, center), radius);
    Hit(t, rp, normal, sphereUV(normal))
  }

  /** `Sphere::hit`: as in src/shapes/Sphere.cc, with the centre as a field, the
    * window as arguments and the texture coordinates from `sphereUV`: the nearer
    * root strictly inside the window, else the farther one, else `NoHit`. */
  function SphereHit(center: Vector3, radius: real, r: Ray, minT: real, maxT: real,
                     sqrt: real -> real, sphereUV: Vector3 -> Vector3): (h: Hit)
    requires IsSqrt(sqrt)
    ensures SphereDisc(center, radius, r) <= 0.0 ==> h == NoHit
    ensures 0.0 < SphereDisc(center, radius, r) ==>
      var near, far := SphereRoot(center, radius, r, sqrt, -1.0), SphereRoot(center, radius, r, sqrt, 1.0);
      && (minT < near < maxT ==> h == SphereHitAt(center, radius, r, near, sphereUV))
      && (!(minT < near < maxT) && minT < far < maxT ==> h == SphereHitAt(center, radius, r, far, sphereUV))
      && (!(minT < near < maxT) && !(minT < far < maxT) ==> h == NoHit)
  {
    var disc := SphereDisc(center, radius, r);
    if disc > 0.0 then
      var t := SphereRoot(center, radius, r, sqrt, -1.0);
      if t > minT && t < maxT then SphereHitAt(center, radius, r, t, sphereUV)
      else
        var t := SphereRoot(center, radius, r, sqrt, 1.0);
        if t > minT && t < maxT then SphereHitAt(center, radius, r, t, sphereUV)
        else NoHit
    else NoHit
  }

  /** With a root strictly inside the window, the sphere reports a hit at a root
    * in the window no later than that one: the nearest. */
  lemma SphereHitNearest(center: Vector3, radius: real, r: Ray, minT: real, maxT: real,
                         sqrt: real -> real, sphereUV: Vector3 -> Vector3, s: real)
    requires IsSqrt(sqrt) && 0.0 < SphereDisc(center, radius, r)
    requires s == SphereRoot(center, radius, r, sqrt, -1.0) || s == SphereRoot(center, radius, r, sqrt, 1.0)
    requires minT < s < maxT
    ensures var h := SphereHit(center, radius, r, minT, maxT, sqrt, sphereUV);
      radius != 0.0 && h == SphereHitAt(center, radius, r, h.t, sphereUV) && minT < h.t <= s
  {
    SphereRootsOrdered(center, radius, r, sqrt);
  }

  /** A hit whose normal is zero sits at the centre; when it is not at the origin
    * or not at t = 0, the objects still see it as found. */
  lemma SphereHitFound(center: Vector3, radius: real, r: Ray, t: real, sphereUV: Vector3 -> Vector3)
    requires radius != 0.0
    ensures var h := SphereHitAt(center, radius, r, t, sphereUV);
      Found(h) || (h.t == 0.0 && h.p == V.Zero && center == V.Zero)
  {
    var h := SphereHitAt(center, radius, r, t, sphereUV);
    if !Found(h) {
      assert h.normal == V.Zero && h.p == V.Zero;
      ZeroNormalAtCentre(h.p, h.normal, center, radius);
    }
  }

  lemma ZeroNormalAtCentre(p: Vector3, n: Vector3, center: Vector3, radius: real)
    requires Scale(n, radius) == Sub(p, center) && n == V.Zero
    ensures p == center
  {
    V.ZeroAbsorbs(p, radius);
    assert V.Sub(p, center) == V.Zero;
  }

  /** `Sphere::bbox()`: `center - radius` to `center + radius`. */
  function SphereBox(center: Vector3, radius: real): (b: Box)
    ensures b == AABB(SubScalar(center, radius), AddScalar(center, radius))
  {
    AABB(SubScalar(center, radius), AddScalar(center, radius))
  }

  /** The box holds every point of the sphere when the radius is not negative. */
  lemma SphereBoxHoldsSphere(center: Vector3, radius: real, p: Vector3)
    requires 0.0 <= radius && SqLen(Sub(p, center)) == radius * radius
    ensures InBox(SphereBox(center, radius), p)
  {
    var d := Sub(p, center);
    ShapesSphere.CoordinateWithin(d.x, d.y * d.y + d.z * d.z, radius);
    ShapesSphere.CoordinateWithin(d.y, d.x * d.x + d.z * d.z, radius);
    ShapesSphere.CoordinateWithin(d.z, d.x * d.x + d.y * d.y, radius);
  }

  // ------------------------------------------------------------ Transform

  /** The eight corners in the order the `Transform` constructor lists them: bit
    * 2 of the index picks `max.x`, bit 1 `max.y`, bit 0 `max.z`. */
  function Corners(b: Box): (ps: seq<Vector3>)
    ensures |ps| == 8
    ensures ps[0] == b.min && ps[7] == b.max
  {
    [V.Vector3(b.min.x, b.min.y, b.min.z), V.Vector3(b.min.x, b.min.y, b.max.z),
     V.Vector3(b.min.x, b.max.y, b.min.z), V.Vector3(b.min.x, b.max.y, b.max.z),
     V.Vector3(b.max.x, b.min.y, b.min.z), V.Vector3(b.max.x, b.min.y, b.max.z),
     V.Vector3(b.max.x, b.max.y, b.min.z), V.Vector3(b.max.x, b.max.y, b.max.z)]
  }

  /** The points `transform(points[i], mat)`. */
  function Mapped(ps: seq<Vector3>, mat: seq<real>): (qs: seq<Vector3>)
    requires |mat| == 16
    ensures |qs| == |ps|
    ensures forall i :: 0 <= i < |ps| ==> qs[i] == CoreMat4.TransformVector(ps[i], mat)
  {
    seq(|ps|, i requires 0 <= i < |ps| => CoreMat4.TransformVector(ps[i], mat))
  }

  /** Coordinate `j` of `aabb.min` after the points `ps`: it starts at
    * `numeric_limits<float>::max()` and is lowered to every smaller coordinate. */
  function Lowest(ps: seq<Vector3>, j: int): (r: real)
    requires 0 <= j < 3
    ensures r <= MaxFloat
    ensures forall i :: 0 <= i < |ps| ==> r <= V.Get(ps[i], j)
    ensures r == MaxFloat || exists i :: 0 <= i < |ps| && r == V.Get(ps[i], j)
  {
    if |ps| == 0 then MaxFloat
    else
      var last := V.Get(ps[|ps| - 1], j);
      var rest := Lowest(ps[..|ps| - 1], j);
      if last < rest then last else rest
  }

  /** Coordinate `j` of `aabb.max`, starting at `-numeric_limits<float>::max()`. */
  function Highest(ps: seq<Vector3>, j: int): (r: real)
    requires 0 <= j < 3
    ensures -MaxFloat <= r
    ensures forall i :: 0 <= i < |ps| ==> V.Get(ps[i], j) <= r
    ensures r == -MaxFloat || exists i :: 0 <= i < |ps| && r == V.Get(ps[i], j)
  {
    if |ps| == 0 then -MaxFloat
    else
      var last := V.Get(ps[|ps| - 1], j);
      var rest := Highest(ps[..|ps| - 1], j);
      if last > rest then last else rest
  }

  function Lows(ps: seq<Vector3>): Vector3 {
    V.Vector3(Lowest(ps, 0), Lowest(ps, 1), Lowest(ps, 2))
  }

  function Highs(ps: seq<Vector3>): Vector3 {
    V.Vector3(Highest(ps, 0), Highest(ps, 1), Highest(ps, 2))
  }

  /** The box the `Transform` constructor computes around the points. */
  function Enclosing(ps: seq<Vector3>): (b: Box)
    ensures forall i :: 0 <= i < |ps| ==> InBox(b, ps[i])
  {
    var b := AABB(Lows(ps), Highs(ps));
    assert forall i :: 0 <= i < |ps| ==> V.Get(ps[i], 0) == ps[i].x && V.Get(ps[i], 1) == ps[i].y && V.Get(ps[i], 2) == ps[i].z;
    b
  }

  /** One more point lowers a coordinate of `aabb.min` to its own if smaller, and
    * raises one of `aabb.max` likewise. */
  lemma EnclosingStep(ps: seq<Vector3>, i: int)
    requires 0 <= i < |ps|
    ensures Lows(ps[..i + 1]) == V.Min(Lows(ps[..i]), ps[i])
    ensures Highs(ps[..i + 1]) == V.Max(Highs(ps[..i]), ps[i])
  {
    assert ps[..i + 1][..i] == ps[..i];
  }

  /** The inner loop of the `Transform` constructor: each coordinate of `lo` is
    * lowered to `p`'s when that is smaller, and each of `hi` raised likewise. */
  method Widen(l: Vec3, h: Vec3, p: Vector3)
    requires l.Valid() && h.Valid() && l.e != h.e
    modifies l.e, h.e
    ensures l.Value() == V.Min(old(l.Value()), p) && h.Value() == V.Max(old(h.Value()), p)
  {
    ghost var l0, h0 := l.Value(), h.Value();
    for j := 0 to 3
      invariant l.Value() == Prefix(V.Min(l0, p), l0, j) && h.Value() == Prefix(V.Max(h0, p), h0, j)
    {
      PrefixStep(V.Min(l0, p), l0, j);
      PrefixStep(V.Max(h0, p), h0, j);
      if V.Get(p, j) < l.Get(j) {
        l.Set(j, V.Get(p, j));
      }
      if V.Get(p, j) > h.Get(j) {
        h.Set(j, V.Get(p, j));
      }
    }
  }

  /** The first `j` coordinates of `a` and the rest of `b`. */
  function Prefix(a: Vector3, b: Vector3, j: int): Vector3
    requires 0 <= j <= 3
  {
    if j == 0 then b
    else if j == 1 then V.Vector3(a.x, b.y, b.z)
    else if j == 2 then V.Vector3(a.x, a.y, b.z)
    else a
  }

  lemma PrefixStep(a: Vector3, b: Vector3, j: int)
    requires 0 <= j < 3
    ensures Prefix(a, b, j + 1) == V.With(Prefix(a, b, j), j, V.Get(a, j))
    ensures V.Get(Prefix(a, b, j), j) == V.Get(b, j)
  {
  }

  /** A `Transform`: the matrix, its inverse (`invMat.copyFrom(mat).invert()`,
    * which keeps the copy when the determinant is zero) and the box around the
    * transformed corners of the child's box. */
  class Transform {
    const mat: seq<real>
    const invMat: seq<real>
    const lo: Vec3
    const hi: Vec3

    /** `Transform(mat, obj)`: `orig` is `obj->bbox()`. */
    constructor (mat: seq<real>, orig: Box)
      requires |mat| == 16
      ensures this.mat == mat
      ensures invMat == if M.Det(mat) == 0.0 then mat else M.InverseEntries(mat)
      ensures lo.Valid() && hi.Valid()
      ensures AABB(lo.Value(), hi.Value()) == Enclosing(Mapped(Corners(orig), mat))
    {
      var points := Corners(orig);
      ghost var ps := Mapped(points, mat);
      var l := new Vec3(MaxFloat, MaxFloat, MaxFloat);
      var h := new Vec3(-MaxFloat, -MaxFloat, -MaxFloat);
      assert ps[..0] == [];
      for i := 0 to 8
        invariant l.Valid() && h.Valid() && l.e != h.e
        invariant l.Value() == Lows(ps[..i]) && h.Value() == Highs(ps[..i])
      {
        var p := CoreMat4.TransformVector(points[i], mat);
        assert p == ps[i];
        Widen(l, h, p);
        EnclosingStep(ps, i);
      }
      assert ps[..8] == ps;
      this.mat := mat;
      invMat := if M.Det(mat) == 0.0 then mat else M.InverseEntries(mat);
      lo, hi := l, h;
    }

    /** `Transform::hit`: the ray taken into the child's space with `invMat`, and
      * a found hit brought back with `mat`, its normal made a unit vector. The
      * child's `hit`, with the window applied, is `child`. */
    function HitWith(child: Ray -> Hit, r: Ray, sqrt: real -> real): (h: Hit)
      requires |mat| == 16 && |invMat| == 16 && IsSqrt(sqrt)
      requires Found(child(ChildRay(r))) ==> CoreMat4.TransformNormalVector(child(ChildRay(r)).normal, mat) != V.Zero
      ensures !Found(child(ChildRay(r))) ==> h == NoHit
      ensures Found(child(ChildRay(r))) ==> (Found(h) && h.t == child(ChildRay(r)).t && h.uv == child(ChildRay(r)).uv
        && h.p == CoreMat4.TransformVector(child(ChildRay(r)).p, mat) && SqLen(h.normal) == 1.0)
      ensures Found(child(ChildRay(r))) ==> var n := CoreMat4.TransformNormalVector(child(ChildRay(r)).normal, mat);
        V.Scale(h.normal, V.Length(n, sqrt)) == n
    {
      var c := child(ChildRay(r));
      if !Found(c) then NoHit
      else
        var n := CoreMat4.TransformNormalVector(c.normal, mat);
        var h := c.(p := CoreMat4.TransformVector(c.p, mat), normal := Unit(n, sqrt));
        assert h.normal != V.Zero;
        h
    }

    /** `Ray tr(transform(r.origin, invMat), transformNormal(r.direction, invMat))`. */
    function ChildRay(r: Ray): (tr: Ray)
      requires |invMat| == 16
      ensures tr.origin == CoreMat4.TransformVector(r.origin, invMat)
      ensures tr.direction == CoreMat4.TransformNormalVector(r.direction, invMat)
    {
      Ray(CoreMat4.TransformVector(r.origin, invMat), CoreMat4.TransformNormalVector(r.direction, invMat))
    }
  }

  /** The transformed box holds every transformed corner of the child's box. */
  lemma TransformBoxHoldsCorners(mat: seq<real>, orig: Box, i: int)
    requires |mat| == 16 && 0 <= i < 8
    ensures InBox(Enclosing(Mapped(Corners(orig), mat)), CoreMat4.TransformVector(Corners(orig)[i], mat))
  {
  }
}
