/** object.js: the JavaScript prototype's shapes. A shape's `hit(r, minT, maxT)`
  * is a function of the ray and the window returning a record or `null`; a
  * wrapper (`FlipNormal`, `ConstantMedium`, `Transform`) takes the wrapped
  * object's `hit` as a parameter. The records `FlipNormal` and `Transform.hit`
  * change in place are fresh objects of the wrapped shape, so changing one is
  * a functional update here. `Mat4`, `getSphereUV` and the `v3` helpers object.js
  * imports are not exported by utils.js and are not part of this model: the
  * matrix maps and the sphere's texture coordinates are parameters, and
  * `v3.mul(-1, n)` is read as the negated vector. Bounding boxes are the
  * `AABB(min, max)` of the rcl port. */
module JsObject {
  import opened Wrappers
  import opened Numerics
  import V = CoreVector3
  import opened JsUtils
  import RclRaytracer
  import RclObjects
  import opened JsRaytracer

  // ------------------------------------------------------------ FlipNormal

  /** `FlipNormal.hit`: the wrapped object's record with the normal negated, or
    * `null` when it misses. */
  function Flip(h: Option<Hit>): (r: Option<Hit>)
    ensures r.None? <==> h.None?
    ensures r.Some? ==> r.value == h.value.(normal := V.Neg(h.value.normal))
  {
    if h.Some? then Some(h.value.(normal := Muls(h.value.normal, -1.0))) else None
  }

  /** Flipping twice gives the record back. */
  lemma FlipTwice(h: Option<Hit>)
    ensures Flip(Flip(h)) == h
  {
  }

  /** A flipped object reports its hits at the same `t`, so it honours and
    * narrows its window as the wrapped object does. */
  lemma FlipListable(f: HitFn)
    requires Honours(f) && Narrows(f)
    ensures Honours((r, lo, hi) => Flip(f(r, lo, hi)))
    ensures Narrows((r, lo, hi) => Flip(f(r, lo, hi)))
  {
  }

  // ------------------------------------------------------------ ConstantMedium

  /** What the code needs of `Math.log`: it is not positive on (0, 1]. */
  ghost predicate LogNonPositive(log: real -> real) {
    forall x :: 0.0 < x <= 1.0 ==> log(x) <= 0.0
  }

  /** `ConstantMedium.hit`: the boundary is asked for the entry with the window
    * `(-Infinity, Infinity)` and for the exit with `(entry + 0.0001, Infinity)`,
    * so `boundary(r, lo)` is its `hit` with lower end `lo` (`None` for
    * `-Infinity`) and upper end `Infinity`. The span is clamped to the window
    * and to `t >= 0`; the ray scatters `hitDistance = -(1 / density) *
    * log(u)` into it, with `u = Math.random()`, or passes through. `log(0)` is
    * minus infinity, so `u = 0` always passes. */
  function MediumHit(boundary: (Ray, Option<real>) -> Option<Hit>, density: real, r: Ray, minT: real, maxT: real,
                     u: real, log: real -> real, sqrt: real -> real): (h: Option<Hit>)
    requires IsSqrt(sqrt) && LogNonPositive(log) && 0.0 < density && 0.0 <= u < 1.0
    ensures boundary(r, None).None? ==> h.None?
    ensures boundary(r, None).Some? && boundary(r, Some(boundary(r, None).value.t + 0.0001)).None? ==> h.None?
    ensures boundary(r, None).Some? && boundary(r, Some(boundary(r, None).value.t + 0.0001)).Some? ==>
      var entry, exit := boundary(r, None).value.t, boundary(r, Some(boundary(r, None).value.t + 0.0001)).value.t;
      && (Max(minT, entry) >= Min(maxT, exit) ==> h.None?)
      && (h.Some? ==> Max(Max(minT, entry), 0.0) <= h.value.t < Min(maxT, exit))
    ensures h.Some? ==> h.value.p == PointAt(r, h.value.t) && h.value.normal == V.Vector3(1.0, 0.0, 0.0) && h.value.uv.None?
  {
    var rec1 := boundary(r, None);
    if rec1.None? then None
    else
      var rec2 := boundary(r, Some(rec1.value.t + 0.0001));
      if rec2.None? then None
      else
        var t1 := Max(minT, rec1.value.t);
        var t2 := Min(maxT, rec2.value.t);
        if t1 >= t2 then None
        else
          Scatter(r, Max(0.0, t1), t2, Len(r.direction, sqrt), density, u, log)
  }

  /** The last part of `ConstantMedium.hit`: the span `[t1, t2)` measured along the
    * ray is `(t2 - t1) * len`, and the ray scatters at distance
    * `-(1 / density) * log(u)` when that falls inside it. */
  function Scatter(r: Ray, t1: real, t2: real, len: real, density: real, u: real, log: real -> real): (h: Option<Hit>)
    requires LogNonPositive(log) && 0.0 < density && 0.0 <= u < 1.0 && 0.0 <= len
    ensures h.Some? ==> t1 <= h.value.t < t2
    ensures h.Some? ==> h.value.p == PointAt(r, h.value.t) && h.value.normal == V.Vector3(1.0, 0.0, 0.0) && h.value.uv.None?
  {
    var dist := (t2 - t1) * len;
    if u == 0.0 then None
    else
      var hitDistance := -(1.0 / density) * log(u);
      if hitDistance >= dist then None
      else
        ScatterDistance(density, log(u), t2 - t1, len, dist, hitDistance);
        var t := t1 + hitDistance / len;
        InsideSpan(t1, t2, len, hitDistance, density, log(u), dist, t);
        Some(Hit(t, PointAt(r, t), V.Vector3(1.0, 0.0, 0.0), None))
  }

  /** A direction of length zero never scatters: its span has length zero. */
  lemma ZeroLengthPasses(r: Ray, t1: real, t2: real, density: real, u: real, log: real -> real)
    requires LogNonPositive(log) && 0.0 < density && 0.0 <= u < 1.0
    ensures Scatter(r, t1, t2, 0.0, density, u, log).None?
  {
    if 0.0 < u {
      assert 0.0 < 1.0 / density && log(u) <= 0.0;
    }
  }

  /** The scattering distance `-(1 / density) * log(u)` is never negative, so a
    * direction of length zero, whose span has length zero, never scatters. */
  lemma ScatterDistance(density: real, l: real, span: real, len: real, dist: real, d: real)
    requires 0.0 < density && l <= 0.0 && 0.0 <= len
    requires d == -(1.0 / density) * l && dist == span * len && d < dist
    ensures 0.0 < len
  {
    assert 0.0 < 1.0 / density;
    assert 0.0 <= d;
  }

  /** `t1 + d / len` lies in `[t1, t2)` when `0 <= d < (t2 - t1) * len`. */
  lemma InsideSpan(t1: real, t2: real, len: real, d: real, density: real, l: real, dist: real, t: real)
    requires 0.0 < len && 0.0 < density && l <= 0.0
    requires d == -(1.0 / density) * l && dist == (t2 - t1) * len && d < dist && t == t1 + d / len
    ensures t1 <= t < t2
  {
    var k := 1.0 / density;
    assert 0.0 < k;
    assert 0.0 <= d;
    var q := d / len;
    assert q * len == d;
    assert 0.0 <= q;
    assert q * len < (t2 - t1) * len;
  }

  // ------------------------------------------------------------ Sphere

  /** `Sphere.hit` (object.js): the raytracer.js sphere's record with the
    * texture coordinate `getSphereUV(normal)` added. */
  function SphereHit(center: Vec3, radius: real, r: Ray, minT: real, maxT: real, sqrt: real -> real,
                     sphereUV: Vec3 -> (real, real)): (h: Option<Hit>)
    requires IsSqrt(sqrt)
    ensures h.None? <==> JsRaytracer.SphereHit(center, radius, r, minT, maxT, sqrt).None?
    ensures h.Some? ==> var g := JsRaytracer.SphereHit(center, radius, r, minT, maxT, sqrt).value;
      h.value == g.(uv := Some(sphereUV(g.normal)))
    ensures h.Some? ==> minT < h.value.t < maxT
  {
    var oc := Sub(r.origin, center);
    var a := Dot(r.direction, r.direction);
    var b := Dot(oc, r.direction);
    var c := Dot(oc, oc) - radius * radius;
    var delta := b * b - a * c;
    assert delta == RclObjects.SphereDisc(center, radius, r);
    if delta > 0.0 then
      var t := (-b - sqrt(delta)) / a;
      assert t == RclObjects.SphereRoot(center, radius, r, sqrt, -1.0);
      if t < maxT && t > minT then Some(UVHitAt(center, radius, r, t, sphereUV))
      else
        var t := (-b + sqrt(delta)) / a;
        assert t == RclObjects.SphereRoot(center, radius, r, sqrt, 1.0);
        if t < maxT && t > minT then Some(UVHitAt(center, radius, r, t, sphereUV))
        else None
    else None
  }

  function UVHitAt(center: Vec3, radius: real, r: Ray, t: real, sphereUV: Vec3 -> (real, real)): (h: Hit)
    requires radius != 0.0
    ensures h == SphereHitAt(center, radius, r, t).(uv := Some(sphereUV(h.normal)))
  {
    var p := PointAt(r, t);
    var normal := Divs(Sub(p, center), radius);
    Hit(t, p, normal, Some(sphereUV(normal)))
  }

  /** `Sphere.bbox()`: `center - radius` to `center + radius`, which holds every
    * point of a sphere whose radius is not negative. */
  function SphereBound(center: Vec3, radius: real): (b: RclObjects.Box)
    ensures b == RclObjects.SphereBox(center, radius)
    ensures forall p :: 0.0 <= radius && Sqlen(Sub(p, center)) == radius * radius ==> RclObjects.InBox(b, p)
  {
    forall p | 0.0 <= radius && Sqlen(Sub(p, center)) == radius * radius
      ensures RclObjects.InBox(RclObjects.SphereBox(center, radius), p)
    {
      RclObjects.SphereBoxHoldsSphere(center, radius, p);
    }
    RclObjects.AABB(Sub(center, V.Vector3(radius, radius, radius)), Add(center, V.Vector3(radius, radius, radius)))
  }

  // ------------------------------------------------------------ rectangles

  /** The plane parameter `(k - o) / d`. object.js divides without a check: a
    * ray parallel to the plane and off it gets an infinite `t`, which the
    * window rejects, so it misses there as here; a ray lying in the plane gets
    * `0 / 0 = NaN`, which every rejecting comparison lets through, so object.js
    * reports a hit with `t = NaN` where the model reports none. */
  function PlaneT(k: real, o: real, d: real): real
    requires d != 0.0
  {
    (k - o) / d
  }

  /** `RectXY.hit` (constructed as `RectXY(x0, y0, x1, y1, z)`): the ray meets
    * the plane `z = k` at `t` inside the window, ends included, and inside
    * `[x0, x1] x [y0, y1]`. */
  function RectXYHit(x0: real, y0: real, x1: real, y1: real, k: real, r: Ray, minT: real, maxT: real): (h: Option<Hit>)
    ensures h.Some? <==> (r.direction.z != 0.0 && minT <= PlaneT(k, r.origin.z, r.direction.z) <= maxT
      && x0 <= PointAt(r, PlaneT(k, r.origin.z, r.direction.z)).x <= x1
      && y0 <= PointAt(r, PlaneT(k, r.origin.z, r.direction.z)).y <= y1)
    ensures h.Some? ==> (h.value.t == PlaneT(k, r.origin.z, r.direction.z) && h.value.p == PointAt(r, h.value.t)
      && h.value.p.z == k && h.value.normal == V.Vector3(0.0, 0.0, 1.0) && h.value.uv.Some?)
    ensures h.Some? && x0 < x1 && y0 < y1 ==> 0.0 <= h.value.uv.value.0 <= 1.0 && 0.0 <= h.value.uv.value.1 <= 1.0
  {
    if r.direction.z == 0.0 then None
    else
      var t := PlaneT(k, r.origin.z, r.direction.z);
      if t < minT || t > maxT then None
      else
        var x := r.origin.x + t * r.direction.x;
        var y := r.origin.y + t * r.direction.y;
        assert PointAt(r, t).x == x && PointAt(r, t).y == y;
        if x < x0 || x > x1 || y < y0 || y > y1 then None
        else
          if x0 < x1 && y0 < y1 then
            RclObjects.Fraction(x, x0, x1);
            RclObjects.Fraction(y, y0, y1);
            Some(Hit(t, PointAt(r, t), V.Vector3(0.0, 0.0, 1.0), Some((RclObjects.Ratio(x - x0, x1 - x0), RclObjects.Ratio(y - y0, y1 - y0)))))
          else
            Some(Hit(t, PointAt(r, t), V.Vector3(0.0, 0.0, 1.0), Some((RclObjects.Ratio(x - x0, x1 - x0), RclObjects.Ratio(y - y0, y1 - y0)))))
  }

  /** `RectXZ.hit` (`RectXZ(x0, z0, x1, z1, y)`): the plane `y = k`, normal
    * (0, 1, 0). */
  function RectXZHit(x0: real, z0: real, x1: real, z1: real, k: real, r: Ray, minT: real, maxT: real): (h: Option<Hit>)
    ensures h.Some? <==> (r.direction.y != 0.0 && minT <= PlaneT(k, r.origin.y, r.direction.y) <= maxT
      && x0 <= PointAt(r, PlaneT(k, r.origin.y, r.direction.y)).x <= x1
      && z0 <= PointAt(r, PlaneT(k, r.origin.y, r.direction.y)).z <= z1)
    ensures h.Some? ==> (h.value.t == PlaneT(k, r.origin.y, r.direction.y) && h.value.p == PointAt(r, h.value.t)
      && h.value.p.y == k && h.value.normal == V.Vector3(0.0, 1.0, 0.0) && h.value.uv.Some?)
    ensures h.Some? && x0 < x1 && z0 < z1 ==> 0.0 <= h.value.uv.value.0 <= 1.0 && 0.0 <= h.value.uv.value.1 <= 1.0
  {
    if r.direction.y == 0.0 then None
    else
      var t := PlaneT(k, r.origin.y, r.direction.y);
      if t < minT || t > maxT then None
      else
        var x := r.origin.x + t * r.direction.x;
        var z := r.origin.z + t * r.direction.z;
        assert PointAt(r, t).x == x && PointAt(r, t).z == z;
        if x < x0 || x > x1 || z < z0 || z > z1 then None
        else
          if x0 < x1 && z0 < z1 then
            RclObjects.Fraction(x, x0, x1);
            RclObjects.Fraction(z, z0, z1);
            Some(Hit(t, PointAt(r, t), V.Vector3(0.0, 1.0, 0.0), Some((RclObjects.Ratio(x - x0, x1 - x0), RclObjects.Ratio(z - z0, z1 - z0)))))
          else
            Some(Hit(t, PointAt(r, t), V.Vector3(0.0, 1.0, 0.0), Some((RclObjects.Ratio(x - x0, x1 - x0), RclObjects.Ratio(z - z0, z1 - z0)))))
  }

  /** `RectYZ.hit` (`RectYZ(y0, z0, y1, z1, x)`): the plane `x = k`, normal
    * (1, 0, 0). */
  function RectYZHit(y0: real, z0: real, y1: real, z1: real, k: real, r: Ray, minT: real, maxT: real): (h: Option<Hit>)
    ensures h.Some? <==> (r.direction.x != 0.0 && minT <= PlaneT(k, r.origin.x, r.direction.x) <= maxT
      && y0 <= PointAt(r, PlaneT(k, r.origin.x, r.direction.x)).y <= y1
      && z0 <= PointAt(r, PlaneT(k, r.origin.x, r.direction.x)).z <= z1)
    ensures h.Some? ==> (h.value.t == PlaneT(k, r.origin.x, r.direction.x) && h.value.p == PointAt(r, h.value.t)
      && h.value.p.x == k && h.value.normal == V.Vector3(1.0, 0.0, 0.0) && h.value.uv.Some?)
    ensures h.Some? && y0 < y1 && z0 < z1 ==> 0.0 <= h.value.uv.value.0 <= 1.0 && 0.0 <= h.value.uv.value.1 <= 1.0
  {
    if r.direction.x == 0.0 then None
    else
      var t := PlaneT(k, r.origin.x, r.direction.x);
      if t < minT || t > maxT then None
      else
        var y := r.origin.y + t * r.direction.y;
        var z := r.origin.z + t * r.direction.z;
        assert PointAt(r, t).y == y && PointAt(r, t).z == z;
        if y < y0 || y > y1 || z < z0 || z > z1 then None
        else
          if y0 < y1 && z0 < z1 then
            RclObjects.Fraction(y, y0, y1);
            RclObjects.Fraction(z, z0, z1);
            Some(Hit(t, PointAt(r, t), V.Vector3(1.0, 0.0, 0.0), Some((RclObjects.Ratio(y - y0, y1 - y0), RclObjects.Ratio(z - z0, z1 - z0)))))
          else
            Some(Hit(t, PointAt(r, t), V.Vector3(1.0, 0.0, 0.0), Some((RclObjects.Ratio(y - y0, y1 - y0), RclObjects.Ratio(z - z0, z1 - z0)))))
  }

  /** The rectangles' `bbox()`: their extents, thickened by 0.0001 on the fixed
    * axis, the rcl boxes; every point a rectangle reports lies in its box. */
  lemma RectHitsInBoxes(a0: real, b0: real, a1: real, b1: real, k: real, r: Ray, minT: real, maxT: real)
    ensures RectXYHit(a0, b0, a1, b1, k, r, minT, maxT).Some? ==>
      RclObjects.InBox(RclObjects.RectXYBox(a0, a1, b0, b1, k), RectXYHit(a0, b0, a1, b1, k, r, minT, maxT).value.p)
    ensures RectXZHit(a0, b0, a1, b1, k, r, minT, maxT).Some? ==>
      RclObjects.InBox(RclObjects.RectXZBox(a0, a1, b0, b1, k), RectXZHit(a0, b0, a1, b1, k, r, minT, maxT).value.p)
    ensures RectYZHit(a0, b0, a1, b1, k, r, minT, maxT).Some? ==>
      RclObjects.InBox(RclObjects.RectYZBox(a0, a1, b0, b1, k), RectYZHit(a0, b0, a1, b1, k, r, minT, maxT).value.p)
  {
  }

  // ------------------------------------------------------------ Box

  /** The objects a `Box` pushes into its list. */
  datatype Face =
    | XY(x0: real, y0: real, x1: real, y1: real, k: real)
    | XZ(x0: real, z0: real, x1: real, z1: real, k: real)
    | YZ(y0: real, z0: real, y1: real, z1: real, k: real)
    | Flipped(face: Face)

  function FaceHit(f: Face, r: Ray, minT: real, maxT: real): Option<Hit> {
    match f
    case XY(x0, y0, x1, y1, k) => RectXYHit(x0, y0, x1, y1, k, r, minT, maxT)
    case XZ(x0, z0, x1, z1, k) => RectXZHit(x0, z0, x1, z1, k, r, minT, maxT)
    case YZ(y0, z0, y1, z1, k) => RectYZHit(y0, z0, y1, z1, k, r, minT, maxT)
    case Flipped(g) => Flip(FaceHit(g, r, minT, maxT))
  }

  function FaceFn(f: Face): HitFn {
    (r, lo, hi) => FaceHit(f, r, lo, hi)
  }

  /** The rectangle's extents and plane lie inside `b`. */
  predicate FaceWithin(f: Face, b: RclObjects.Box) {
    match f
    case XY(x0, y0, x1, y1, k) => b.min.x <= x0 && x1 <= b.max.x && b.min.y <= y0 && y1 <= b.max.y && b.min.z <= k <= b.max.z
    case XZ(x0, z0, x1, z1, k) => b.min.x <= x0 && x1 <= b.max.x && b.min.z <= z0 && z1 <= b.max.z && b.min.y <= k <= b.max.y
    case YZ(y0, z0, y1, z1, k) => b.min.y <= y0 && y1 <= b.max.y && b.min.z <= z0 && z1 <= b.max.z && b.min.x <= k <= b.max.x
    case Flipped(g) => FaceWithin(g, b)
  }

  /** The plane the face lies in. */
  function Plane(f: Face): real {
    match f
    case Flipped(g) => Plane(g)
    case _ => f.k
  }

  /** A face reports hits inside the window, and a hit before a narrowed far end
    * is still the face's hit: the plane meets the ray once. */
  lemma {:induction false} FaceListable(f: Face)
    ensures Honours(FaceFn(f)) && Narrows(FaceFn(f))
  {
    forall r, lo, hi | FaceFn(f)(r, lo, hi).Some?
      ensures lo <= FaceFn(f)(r, lo, hi).value.t <= hi
    {
      FaceWindow(f, r, lo, hi, hi);
    }
    forall r, lo, hi, hi2 | hi2 <= hi && FaceFn(f)(r, lo, hi).Some? && FaceFn(f)(r, lo, hi).value.t < hi2
      ensures FaceFn(f)(r, lo, hi2).Some? && FaceFn(f)(r, lo, hi2).value.t <= FaceFn(f)(r, lo, hi).value.t
    {
      FaceWindow(f, r, lo, hi, hi2);
    }
  }

  /** A face's hit lies in the window, and the face still hits at the same `t`
    * when the far end is moved to a point at or beyond it. */
  lemma {:induction false} FaceWindow(f: Face, r: Ray, lo: real, hi: real, hi2: real)
    requires FaceHit(f, r, lo, hi).Some?
    ensures lo <= FaceHit(f, r, lo, hi).value.t <= hi
    ensures FaceHit(f, r, lo, hi).value.t <= hi2 ==>
      FaceHit(f, r, lo, hi2).Some? && FaceHit(f, r, lo, hi2).value.t == FaceHit(f, r, lo, hi).value.t
  {
    match f
    case XY(x0, y0, x1, y1, k) =>
    case XZ(x0, z0, x1, z1, k) =>
    case YZ(y0, z0, y1, z1, k) =>
    case Flipped(g) => FaceWindow(g, r, lo, hi, hi2);
  }

  /** A face inside a box reports only points of the box. */
  lemma {:induction false} FaceHitInBox(f: Face, b: RclObjects.Box, r: Ray, minT: real, maxT: real)
    requires FaceWithin(f, b)
    ensures FaceHit(f, r, minT, maxT).Some? ==> RclObjects.InBox(b, FaceHit(f, r, minT, maxT).value.p)
  {
    match f
    case Flipped(g) => FaceHitInBox(g, b, r, minT, maxT);
    case _ =>
  }

  /** `new Box(p0, p1)`: for z, then y, then x, the face at `p1` and the face at
    * `p0` wrapped in `FlipNormal`. */
  function BoxFaces(p0: Vec3, p1: Vec3): (faces: seq<Face>)
    ensures |faces| == 6
    ensures forall i :: 0 <= i < 6 ==> (faces[i].Flipped? <==> i % 2 == 1)
    ensures Plane(faces[0]) == p1.z && Plane(faces[1]) == p0.z
    ensures Plane(faces[2]) == p1.y && Plane(faces[3]) == p0.y
    ensures Plane(faces[4]) == p1.x && Plane(faces[5]) == p0.x
    ensures p0.x <= p1.x && p0.y <= p1.y && p0.z <= p1.z ==>
      forall i :: 0 <= i < 6 ==> FaceWithin(faces[i], BoxBound(p0, p1))
  {
    [XY(p0.x, p0.y, p1.x, p1.y, p1.z), Flipped(XY(p0.x, p0.y, p1.x, p1.y, p0.z)),
     XZ(p0.x, p0.z, p1.x, p1.z, p1.y), Flipped(XZ(p0.x, p0.z, p1.x, p1.z, p0.y)),
     YZ(p0.y, p0.z, p1.y, p1.z, p1.x), Flipped(YZ(p0.y, p0.z, p1.y, p1.z, p0.x))]
  }

  /** `Box.bbox()`: `AABB(pmin, pmax)`. */
  function BoxBound(p0: Vec3, p1: Vec3): (b: RclObjects.Box)
    ensures b.min == p0 && b.max == p1
  {
    RclObjects.AABB(p0, p1)
  }

  /** The list of the box's faces. */
  function BoxList(p0: Vec3, p1: Vec3): (fs: seq<HitFn>)
    ensures |fs| == 6
    ensures forall i :: 0 <= i < 6 ==> fs[i] == FaceFn(BoxFaces(p0, p1)[i])
  {
    var faces := BoxFaces(p0, p1);
    seq(6, i requires 0 <= i < 6 => FaceFn(faces[i]))
  }

  /** `Box.hit`: `this.list.hit(r, minT, maxT)`. */
  function BoxHit(p0: Vec3, p1: Vec3, r: Ray, minT: real, maxT: real): Option<Hit> {
    Scan(BoxList(p0, p1), r, minT, maxT)
  }

  /** A box misses exactly when all six faces miss the whole window; otherwise
    * it reports a hit in the window no later than any face's, at a point of
    * the box. */
  lemma BoxHitFacts(p0: Vec3, p1: Vec3, r: Ray, minT: real, maxT: real)
    requires p0.x <= p1.x && p0.y <= p1.y && p0.z <= p1.z
    ensures BoxHit(p0, p1, r, minT, maxT).None? <==>
      forall i :: 0 <= i < 6 ==> FaceHit(BoxFaces(p0, p1)[i], r, minT, maxT).None?
    ensures BoxHit(p0, p1, r, minT, maxT).Some? ==>
      && minT <= BoxHit(p0, p1, r, minT, maxT).value.t <= maxT
      && RclObjects.InBox(BoxBound(p0, p1), BoxHit(p0, p1, r, minT, maxT).value.p)
    ensures forall i :: 0 <= i < 6 && FaceHit(BoxFaces(p0, p1)[i], r, minT, maxT).Some? ==>
      BoxHit(p0, p1, r, minT, maxT).Some? &&
      BoxHit(p0, p1, r, minT, maxT).value.t <= FaceHit(BoxFaces(p0, p1)[i], r, minT, maxT).value.t
  {
    var faces, fs := BoxFaces(p0, p1), BoxList(p0, p1);
    var b := BoxBound(p0, p1);
    ScanMisses(fs, r, minT, maxT);
    forall k | 0 <= k < 6
      ensures Honours(fs[k]) && Narrows(fs[k])
    {
      FaceListable(faces[k]);
    }
    ScanWithin(fs, r, minT, maxT);
    forall k, ray, lo, hi | 0 <= k < 6 && fs[k](ray, lo, hi).Some?
      ensures RclObjects.InBox(b, fs[k](ray, lo, hi).value.p)
    {
      FaceHitInBox(faces[k], b, ray, lo, hi);
    }
    ScanKeeps(fs, r, minT, maxT, (h: Hit) => RclObjects.InBox(b, h.p));
    forall i | 0 <= i < 6 && FaceHit(faces[i], r, minT, maxT).Some?
      ensures Scan(fs, r, minT, maxT).Some? && Scan(fs, r, minT, maxT).value.t <= FaceHit(faces[i], r, minT, maxT).value.t
    {
      ScanNearest(fs, r, minT, maxT, i);
    }
  }

  // ------------------------------------------------------------ Transform

  /** A coordinate of the running `min` and `max` vectors of the `Transform`
    * constructor, which start at `Infinity` and `-Infinity`. */
  datatype Extended = NegInfinity | Finite(value: real) | PosInfinity

  /** `x < e` and `x > e`. */
  predicate Below(x: real, e: Extended) {
    e.PosInfinity? || (e.Finite? && x < e.value)
  }

  predicate Above(x: real, e: Extended) {
    e.NegInfinity? || (e.Finite? && x > e.value)
  }

  /** `min[j]` after the points `ps`: lowered to each smaller coordinate. */
  function Least(ps: seq<Vec3>, j: int): (e: Extended)
    requires 0 <= j < 3
    ensures |ps| == 0 ==> e == PosInfinity
    ensures 0 < |ps| ==> (e.Finite?
      && (forall i :: 0 <= i < |ps| ==> e.value <= Index(ps[i], j))
      && (exists i :: 0 <= i < |ps| && e.value == Index(ps[i], j)))
  {
    if |ps| == 0 then PosInfinity
    else
      var e := Least(ps[..|ps| - 1], j);
      var x := Index(ps[|ps| - 1], j);
      if Below(x, e) then Finite(x) else e
  }

  /** `max[j]` after the points `ps`: raised to each larger coordinate. */
  function Greatest(ps: seq<Vec3>, j: int): (e: Extended)
    requires 0 <= j < 3
    ensures |ps| == 0 ==> e == NegInfinity
    ensures 0 < |ps| ==> (e.Finite?
      && (forall i :: 0 <= i < |ps| ==> Index(ps[i], j) <= e.value)
      && (exists i :: 0 <= i < |ps| && e.value == Index(ps[i], j)))
  {
    if |ps| == 0 then NegInfinity
    else
      var e := Greatest(ps[..|ps| - 1], j);
      var x := Index(ps[|ps| - 1], j);
      if Above(x, e) then Finite(x) else e
  }

  /** The box around the points, one coordinate at a time. */
  function Bounds(ps: seq<Vec3>): (b: RclObjects.Box)
    requires 0 < |ps|
    ensures forall i :: 0 <= i < |ps| ==> RclObjects.InBox(b, ps[i])
  {
    var b := RclObjects.AABB(V.Vector3(Least(ps, 0).value, Least(ps, 1).value, Least(ps, 2).value),
                             V.Vector3(Greatest(ps, 0).value, Greatest(ps, 1).value, Greatest(ps, 2).value));
    assert forall i :: 0 <= i < |ps| ==> Index(ps[i], 0) == ps[i].x && Index(ps[i], 1) == ps[i].y && Index(ps[i], 2) == ps[i].z;
    b
  }

  /** The three coordinates of `min` and of `max` after the points `ps`. */
  function Lows(ps: seq<Vec3>): (e: seq<Extended>)
    ensures |e| == 3 && forall j :: 0 <= j < 3 ==> e[j] == Least(ps, j)
  {
    [Least(ps, 0), Least(ps, 1), Least(ps, 2)]
  }

  function Highs(ps: seq<Vec3>): (e: seq<Extended>)
    ensures |e| == 3 && forall j :: 0 <= j < 3 ==> e[j] == Greatest(ps, j)
  {
    [Greatest(ps, 0), Greatest(ps, 1), Greatest(ps, 2)]
  }

  /** The inner loop's effect on `min`: each coordinate lowered to `p`'s when
    * that is below it. */
  function Lowered(e: seq<Extended>, p: Vec3): (r: seq<Extended>)
    requires |e| == 3
    ensures |r| == 3
  {
    seq(3, j requires 0 <= j < 3 => if Below(Index(p, j), e[j]) then Finite(Index(p, j)) else e[j])
  }

  function Raised(e: seq<Extended>, p: Vec3): (r: seq<Extended>)
    requires |e| == 3
    ensures |r| == 3
  {
    seq(3, j requires 0 <= j < 3 => if Above(Index(p, j), e[j]) then Finite(Index(p, j)) else e[j])
  }

  /** One more point in the outer loop. */
  lemma ExtremaStep(ps: seq<Vec3>, i: int)
    requires 0 <= i < |ps|
    ensures Lows(ps[..i + 1]) == Lowered(Lows(ps[..i]), ps[i])
    ensures Highs(ps[..i + 1]) == Raised(Highs(ps[..i]), ps[i])
  {
    assert ps[..i + 1][..i] == ps[..i];
  }

  /** The inner loop of the `Transform` constructor: `if (p[j] < min[j]) min[j]
    * = p[j]; if (p[j] > max[j]) max[j] = p[j];` for `j` from 0 to 2. */
  method Widen(lo: array<Extended>, hi: array<Extended>, p: Vec3)
    requires lo.Length == 3 && hi.Length == 3 && lo != hi
    modifies lo, hi
    ensures lo[..] == Lowered(old(lo[..]), p) && hi[..] == Raised(old(hi[..]), p)
  {
    ghost var lo0, hi0 := lo[..], hi[..];
    for j := 0 to 3
      invariant forall k :: 0 <= k < j ==> lo[k] == Lowered(lo0, p)[k] && hi[k] == Raised(hi0, p)[k]
      invariant forall k :: j <= k < 3 ==> lo[k] == lo0[k] && hi[k] == hi0[k]
    {
      if Below(Index(p, j), lo[j]) {
        lo[j] := Finite(Index(p, j));
      }
      if Above(Index(p, j), hi[j]) {
        hi[j] := Finite(Index(p, j));
      }
    }
  }

  /** The points `v3.transform(points[i], this.transform)`. */
  function MappedCorners(orig: RclObjects.Box, toWorld: Vec3 -> Vec3): (ps: seq<Vec3>)
    ensures |ps| == 8
    ensures forall i :: 0 <= i < 8 ==> ps[i] == toWorld(RclObjects.Corners(orig)[i])
  {
    var points := RclObjects.Corners(orig);
    seq(8, i requires 0 <= i < 8 => toWorld(points[i]))
  }

  /** A `Transform`. `Mat4` is not part of this model, so the matrix and its
    * inverse enter as the maps `v3.transform(·, m)` and `v3.transformNormal(·,
    * m)` for `m` the object's `transform` and `invTransform`. */
  class Transform {
    const toWorld: Vec3 -> Vec3
    const toWorldNormal: Vec3 -> Vec3
    const toLocal: Vec3 -> Vec3
    const toLocalNormal: Vec3 -> Vec3
    const bbox: RclObjects.Box

    /** The constructor's box: the eight corners of the wrapped object's box
      * `orig`, transformed, with `min` and `max` lowered and raised coordinate by
      * coordinate. */
    constructor (toWorld: Vec3 -> Vec3, toWorldNormal: Vec3 -> Vec3, toLocal: Vec3 -> Vec3,
                 toLocalNormal: Vec3 -> Vec3, orig: RclObjects.Box)
      ensures this.toWorld == toWorld && this.toWorldNormal == toWorldNormal
      ensures this.toLocal == toLocal && this.toLocalNormal == toLocalNormal
      ensures bbox == Bounds(MappedCorners(orig, toWorld))
    {
      var points := RclObjects.Corners(orig);
      ghost var ps := MappedCorners(orig, toWorld);
      var lo := new Extended[3](_ => PosInfinity);
      var hi := new Extended[3](_ => NegInfinity);
      assert lo[..] == Lows(ps[..0]) && hi[..] == Highs(ps[..0]);
      for i := 0 to 8
        invariant lo[..] == Lows(ps[..i]) && hi[..] == Highs(ps[..i])
      {
        var p := toWorld(points[i]);
        Widen(lo, hi, p);
        ExtremaStep(ps, i);
      }
      assert ps[..8] == ps;
      this.toWorld, this.toWorldNormal := toWorld, toWorldNormal;
      this.toLocal, this.toLocalNormal := toLocal, toLocalNormal;
      bbox := RclObjects.AABB(V.Vector3(lo[0].value, lo[1].value, lo[2].value),
                              V.Vector3(hi[0].value, hi[1].value, hi[2].value));
    }

    /** `tr`: the ray taken into the wrapped object's space. */
    function LocalRay(r: Ray): (tr: Ray)
      ensures tr.origin == toLocal(r.origin) && tr.direction == toLocalNormal(r.direction)
    {
      RclRaytracer.Ray(toLocal(r.origin), toLocalNormal(r.direction))
    }

    /** `Transform.hit`: `null` exactly when the wrapped object misses `tr`;
      * otherwise its record at the same `t`, with the point brought back and
      * the normal brought back and made a unit vector. `child` is the wrapped
      * object's `hit`. */
    function HitWith(child: HitFn, r: Ray, minT: real, maxT: real, sqrt: real -> real): (h: Option<Hit>)
      requires IsSqrt(sqrt)
      requires child(LocalRay(r), minT, maxT).Some? ==> toWorldNormal(child(LocalRay(r), minT, maxT).value.normal) != V.Zero
      ensures h.None? <==> child(LocalRay(r), minT, maxT).None?
      ensures h.Some? ==> var c := child(LocalRay(r), minT, maxT).value;
        && h.value.t == c.t && h.value.uv == c.uv && h.value.p == toWorld(c.p)
        && Sqlen(h.value.normal) == 1.0
      ensures h.Some? ==> var n := toWorldNormal(child(LocalRay(r), minT, maxT).value.normal);
        V.Scale(h.value.normal, V.Length(n, sqrt)) == n
    {
      var c := child(LocalRay(r), minT, maxT);
      if c.None? then None
      else
        LengthNonZero(toWorldNormal(c.value.normal), sqrt);
        Some(c.value.(p := toWorld(c.value.p), normal := Unit(toWorldNormal(c.value.normal), sqrt)))
    }
  }

  /** The transformed box holds every transformed corner of the wrapped
    * object's box. */
  lemma TransformBoxHoldsCorners(t: Transform, orig: RclObjects.Box, i: int)
    requires t.bbox == Bounds(MappedCorners(orig, t.toWorld)) && 0 <= i < 8
    ensures RclObjects.InBox(t.bbox, t.toWorld(RclObjects.Corners(orig)[i]))
  {
  }
}
