/** raytracer.js: the JavaScript prototype's camera, its three materials, its
  * sphere and the list of objects that picks the nearest hit. A `hit` returns a
  * record or `null`, which is an `Option<Hit>` here; a `scatter` likewise. The
  * samples `randomInUnitSphere()`, `randomInUnitDisk()` and `Math.random()` draw
  * are parameters, and so are `Math.sqrt` and `Math.tan`. The material a hit
  * record carries is not modelled. */
module JsRaytracer {
  import opened Wrappers
  import opened Numerics
  import V = CoreVector3
  import opened JsUtils
  import RclRaytracer
  import RclObjects
  import RclTexture
  import ShapesSphere

  /** A hit record: `t`, the point, the normal and, for the shapes that set one,
    * the texture coordinate `uv`. */
  datatype Hit = Hit(t: real, p: Vec3, normal: Vec3, uv: Option<(real, real)>)

  /** What `scatter` returns when it does not absorb the ray. */
  datatype Scatter = Scatter(scattered: Ray, attenuation: Vec3)

  // ------------------------------------------------------------ Camera

  datatype Camera = Camera(lensRadius: real, origin: Vec3, w: Vec3, u: Vec3, v: Vec3,
                           lowerLeftCorner: Vec3, horizontal: Vec3, vertical: Vec3)

  /** The camera's `w`: the unit vector from `lookat` back to `lookfrom`. */
  function Back(lookfrom: Vec3, lookat: Vec3, sqrt: real -> real): (w: Vec3)
    requires IsSqrt(sqrt) && lookfrom != lookat
    ensures Sqlen(w) == 1.0
  {
    LengthNonZero(Sub(lookfrom, lookat), sqrt);
    Unit(Sub(lookfrom, lookat), sqrt)
  }

  /** Only the zero vector has length zero. */
  lemma LengthNonZero(v: Vec3, sqrt: real -> real)
    requires IsSqrt(sqrt) && v != V.Zero
    ensures Len(v, sqrt) != 0.0
  {
  }

  /** `Math.tan(theta / 2)` for `theta = vfov * Math.PI / 180`. */
  function HalfHeight(vfov: real, pi: real, tan: real -> real): real {
    tan(vfov * pi / 180.0 / 2.0)
  }

  /** `new Camera(lookfrom, lookat, vup, vfov, aspect, aperture, focusDist)`:
    * the lens radius is half the aperture, and `w`, `u`, `v` are an orthonormal
    * basis with `w` pointing back at the viewer and `u` across `vup`. `vfov` is
    * in degrees; `pi` is `Math.PI`. The viewing direction must not be parallel
    * to `vup`, or `u` is the unit vector of a zero vector. */
  function MakeCamera(lookfrom: Vec3, lookat: Vec3, vup: Vec3, vfov: real, aspect: real, aperture: real,
                      focusDist: real, pi: real, tan: real -> real, sqrt: real -> real): (c: Camera)
    requires IsSqrt(sqrt) && lookfrom != lookat
    requires Len(Cross(vup, Back(lookfrom, lookat, sqrt)), sqrt) != 0.0
    ensures c.lensRadius * 2.0 == aperture && c.origin == lookfrom
    ensures c.w == Back(lookfrom, lookat, sqrt)
    ensures Sqlen(c.w) == 1.0 && Sqlen(c.u) == 1.0 && Sqlen(c.v) == 1.0
    ensures Dot(c.u, c.w) == 0.0 && Dot(c.v, c.w) == 0.0 && Dot(c.v, c.u) == 0.0
    ensures Dot(c.u, vup) == 0.0
    ensures c.v == Cross(c.w, c.u)
    ensures Add(Add(c.lowerLeftCorner, Muls(c.horizontal, 0.5)), Muls(c.vertical, 0.5)) == Sub(lookfrom, Muls(c.w, focusDist))
    ensures c.horizontal == Muls(c.u, 2.0 * (aspect * HalfHeight(vfov, pi, tan)) * focusDist)
    ensures c.vertical == Muls(c.v, 2.0 * HalfHeight(vfov, pi, tan) * focusDist)
  {
    var w := Back(lookfrom, lookat, sqrt);
    var u := Unit(Cross(vup, w), sqrt);
    CameraBasis(vup, w, sqrt);
    Viewport(aperture / 2.0, lookfrom, w, u, Cross(w, u), aspect * HalfHeight(vfov, pi, tan), HalfHeight(vfov, pi, tan), focusDist)
  }

  /** `w`, `u = unit(vup x w)` and `v = w x u` are orthonormal, with `u`
    * across `vup`. */
  lemma CameraBasis(vup: Vec3, w: Vec3, sqrt: real -> real)
    requires IsSqrt(sqrt) && Sqlen(w) == 1.0 && Len(Cross(vup, w), sqrt) != 0.0
    ensures var u := Unit(Cross(vup, w), sqrt);
      && Sqlen(u) == 1.0 && Dot(u, w) == 0.0 && Dot(u, vup) == 0.0
      && Sqlen(Cross(w, u)) == 1.0 && Dot(Cross(w, u), w) == 0.0 && Dot(Cross(w, u), u) == 0.0
  {
    var u := Unit(Cross(vup, w), sqrt);
    UnitAcross(vup, w, sqrt);
    OrthonormalCross(w, u);
  }

  /** The camera at `origin` on the basis `w`, `u`, `v`: a viewport `2 hw` by
    * `2 hh` times `focusDist`, its lower left corner placed so that the
    * viewport is centred `focusDist` along `-w`. */
  function Viewport(lensRadius: real, origin: Vec3, w: Vec3, u: Vec3, v: Vec3, hw: real, hh: real, focusDist: real): (c: Camera)
    ensures c.lensRadius == lensRadius && c.origin == origin && c.w == w && c.u == u && c.v == v
    ensures c.horizontal == Muls(u, 2.0 * hw * focusDist) && c.vertical == Muls(v, 2.0 * hh * focusDist)
    ensures Add(Add(c.lowerLeftCorner, Muls(c.horizontal, 0.5)), Muls(c.vertical, 0.5)) == Sub(origin, Muls(w, focusDist))
  {
    var lowerLeftCorner := Sub(Sub(Sub(origin, Muls(u, hw * focusDist)), Muls(v, hh * focusDist)), Muls(w, focusDist));
    ViewportCentre(origin, u, v, w, hw, hh, focusDist);
    Camera(lensRadius, origin, w, u, v, lowerLeftCorner, Muls(u, 2.0 * hw * focusDist), Muls(v, 2.0 * hh * focusDist))
  }

  /** Half the viewport's width and height from its lower left corner is
    * `focusDist` along `-w` from the eye. */
  lemma ViewportCentre(o: Vec3, u: Vec3, v: Vec3, w: Vec3, hw: real, hh: real, f: real)
    ensures var corner := Sub(Sub(Sub(o, Muls(u, hw * f)), Muls(v, hh * f)), Muls(w, f));
      Add(Add(corner, Muls(Muls(u, 2.0 * hw * f), 0.5)), Muls(Muls(v, 2.0 * hh * f), 0.5)) == Sub(o, Muls(w, f))
  {
    HalfOfDouble(u.x, hw * f);
    HalfOfDouble(u.y, hw * f);
    HalfOfDouble(u.z, hw * f);
    HalfOfDouble(v.x, hh * f);
    HalfOfDouble(v.y, hh * f);
    HalfOfDouble(v.z, hh * f);
    assert 2.0 * hw * f == 2.0 * (hw * f) && 2.0 * hh * f == 2.0 * (hh * f);
  }

  lemma HalfOfDouble(a: real, k: real)
    ensures a * (2.0 * k) * 0.5 == a * k
  {
  }

  /** The unit vector of `a x b` is orthogonal to `a` and `b`. */
  lemma UnitAcross(a: Vec3, b: Vec3, sqrt: real -> real)
    requires IsSqrt(sqrt) && Len(Cross(a, b), sqrt) != 0.0
    ensures Dot(Unit(Cross(a, b), sqrt), a) == 0.0 && Dot(Unit(Cross(a, b), sqrt), b) == 0.0
  {
    var c, l := Cross(a, b), Len(Cross(a, b), sqrt);
    DividedOrthogonal(c, a, l);
    DividedOrthogonal(c, b, l);
  }

  lemma DividedOrthogonal(c: Vec3, a: Vec3, l: real)
    requires l != 0.0 && Dot(c, a) == 0.0
    ensures Dot(Divs(c, l), a) == 0.0
  {
    var d := Divs(c, l);
    assert Dot(c, a) == l * Dot(d, a) by {
      assert c == Muls(d, l);
    }
  }

  /** The cross product of two orthogonal unit vectors is a unit vector
    * orthogonal to both. */
  lemma OrthonormalCross(w: Vec3, u: Vec3)
    requires Sqlen(w) == 1.0 && Sqlen(u) == 1.0 && Dot(u, w) == 0.0
    ensures Sqlen(Cross(w, u)) == 1.0
  {
    ShapesSphere.Lagrange(w, u);
  }

  /** `getRay(s, t)`: the ray from the lens point `origin + offset` to the point
    * `lowerLeftCorner + s * horizontal + t * vertical` on the focus plane, where
    * `offset` is the disk sample `rd`, scaled by the lens radius, laid along `u`
    * and `v`. */
  function GetRay(c: Camera, s: real, t: real, rd: Vec3): (r: Ray)
    ensures var rs := Muls(rd, c.lensRadius);
      r.origin == Add(c.origin, Add(Muls(c.u, rs.x), Muls(c.v, rs.y)))
    ensures PointAt(r, 1.0) == Add(Add(c.lowerLeftCorner, Muls(c.horizontal, s)), Muls(c.vertical, t))
    ensures c.lensRadius == 0.0 ==> r.origin == c.origin
  {
    var rs := Muls(rd, c.lensRadius);
    var offset := Add(Muls(c.u, rs.x), Muls(c.v, rs.y));
    var target := Add(Add(c.lowerLeftCorner, Muls(c.horizontal, s)), Muls(c.vertical, t));
    RclRaytracer.Ray(Add(c.origin, offset), Sub(Sub(target, c.origin), offset))
  }

  // ------------------------------------------------------------ materials

  /** `Lambertian.scatter`: never absorbs; from the hit point towards
    * `p + normal + sample`, with the albedo as attenuation. */
  function Lambertian(albedo: Vec3, record: Hit, sample: Vec3): (s: Option<Scatter>)
    ensures s.Some?
    ensures s.value.scattered.origin == record.p && s.value.attenuation == albedo
    ensures s.value.scattered.direction == V.Add(record.normal, sample)
  {
    var target := Add(Add(record.p, record.normal), sample);
    Some(Scatter(RclRaytracer.Ray(record.p, Sub(target, record.p)), albedo))
  }

  /** `new Metal(albedo, fuzz)` keeps `Math.min(1, fuzz)`. */
  function MetalFuzz(fuzz: real): (f: real)
    ensures f <= 1.0 && f <= fuzz
    ensures fuzz <= 1.0 ==> f == fuzz
  {
    Min(1.0, fuzz)
  }

  /** The direction `Metal.scatter` sends the ray: the unit incoming direction
    * reflected about the normal, perturbed by `fuzz` times the sample. */
  function MetalDirection(fuzz: real, ray: Ray, record: Hit, sample: Vec3, sqrt: real -> real): Vec3
    requires IsSqrt(sqrt) && Len(ray.direction, sqrt) != 0.0
  {
    Add(Reflect(Unit(ray.direction, sqrt), record.normal), Muls(sample, fuzz))
  }

  /** `Metal.scatter`: `null` exactly when the perturbed reflection does not
    * leave on the normal's side; otherwise a ray from the hit point with the
    * albedo. */
  function Metal(albedo: Vec3, fuzz: real, ray: Ray, record: Hit, sample: Vec3, sqrt: real -> real): (s: Option<Scatter>)
    requires IsSqrt(sqrt) && Len(ray.direction, sqrt) != 0.0
    ensures s.None? <==> Dot(MetalDirection(fuzz, ray, record, sample, sqrt), record.normal) <= 0.0
    ensures s.Some? ==> s.value == Scatter(RclRaytracer.Ray(record.p, MetalDirection(fuzz, ray, record, sample, sqrt)), albedo)
  {
    var reflected := Reflect(Unit(ray.direction, sqrt), record.normal);
    var scattered := RclRaytracer.Ray(record.p, Add(reflected, Muls(sample, fuzz)));
    if Dot(scattered.direction, record.normal) > 0.0 then Some(Scatter(scattered, albedo))
    else None
  }

  /** `Dielectric.schlick(cosine, refIdx)`, the formula rcl/texture.h uses too. */
  function Schlick(cosine: real, refIdx: real): (r: real)
    requires refIdx != -1.0
    ensures r == RclTexture.Schlick(cosine, refIdx)
    ensures 0.0 <= cosine <= 1.0 && 0.0 < refIdx ==> 0.0 <= r <= 1.0
  {
    var r0 := (1.0 - refIdx) / (1.0 + refIdx);
    var r0 := r0 * r0;
    SchlickInUnit(cosine, refIdx);
    r0 + (1.0 - r0) * Pow5(1.0 - cosine)
  }

  lemma SchlickInUnit(cosine: real, refIdx: real)
    requires refIdx != -1.0
    ensures 0.0 <= cosine <= 1.0 && 0.0 < refIdx ==> 0.0 <= RclTexture.Schlick(cosine, refIdx) <= 1.0
  {
    if 0.0 <= cosine <= 1.0 && 0.0 < refIdx {
      RclTexture.SchlickInUnit(cosine, refIdx);
    }
  }

  /** The outward normal, the ratio `niNt` and the cosine `Dielectric.scatter`
    * chooses from the side the ray arrives on. */
  datatype Side = Side(outNormal: Vec3, niNt: real, cosine: real)

  function Sides(ri: real, ray: Ray, record: Hit, sqrt: real -> real): (sd: Side)
    requires IsSqrt(sqrt) && Len(ray.direction, sqrt) != 0.0 && ri != 0.0
    ensures Dot(ray.direction, sd.outNormal) <= 0.0
    ensures 0.0 < Dot(ray.direction, record.normal) ==> sd.outNormal == V.Neg(record.normal) && sd.niNt == ri
    ensures Dot(ray.direction, record.normal) <= 0.0 ==> sd.outNormal == record.normal && sd.niNt == 1.0 / ri
    ensures 0.0 < ri ==> 0.0 <= sd.cosine
  {
    var len := Len(ray.direction, sqrt);
    var dn := Dot(ray.direction, record.normal);
    if dn > 0.0 then
      RclTexture.NegatedSide(ray.direction, record.normal);
      assert Muls(record.normal, -1.0) == V.Neg(record.normal);
      if 0.0 < ri then
        RclTexture.PositiveCosine(ri, dn, len);
        Side(Muls(record.normal, -1.0), ri, ri * dn / len)
      else
        Side(Muls(record.normal, -1.0), ri, ri * dn / len)
    else
      if 0.0 < ri then
        RclTexture.PositiveCosine(ri, -dn, len);
        assert -ri * dn == ri * -dn;
        Side(record.normal, 1.0 / ri, -ri * dn / len)
      else
        Side(record.normal, 1.0 / ri, -ri * dn / len)
  }

  /** `Dielectric.scatter`: never `null`, always white, always from the hit
    * point. With `u = Math.random()` in [0, 1) it reflects when refraction
    * fails and otherwise when `u` is below the Schlick reflectance; else it
    * refracts. */
  function Dielectric(ri: real, ray: Ray, record: Hit, u: real, sqrt: real -> real): (s: Option<Scatter>)
    requires IsSqrt(sqrt) && Len(ray.direction, sqrt) != 0.0 && ri != 0.0 && ri != -1.0
    requires 0.0 <= u < 1.0
    ensures s.Some? && s.value.attenuation == V.Vector3(1.0, 1.0, 1.0) && s.value.scattered.origin == record.p
    ensures var sd := Sides(ri, ray, record, sqrt);
      var refracted := Refract(ray.direction, sd.outNormal, sd.niNt, sqrt);
      && (refracted.None? ==> s.value.scattered.direction == Reflect(ray.direction, record.normal))
      && (refracted.Some? && u < Schlick(sd.cosine, ri) ==> s.value.scattered.direction == Reflect(ray.direction, record.normal))
      && (refracted.Some? && Schlick(sd.cosine, ri) <= u ==> s.value.scattered.direction == refracted.value)
  {
    var reflected := Reflect(ray.direction, record.normal);
    var sd := Sides(ri, ray, record, sqrt);
    var refracted := Refract(ray.direction, sd.outNormal, sd.niNt, sqrt);
    var reflectProb := if refracted.Some? then Schlick(sd.cosine, ri) else 1.0;
    if u < reflectProb then Some(Scatter(RclRaytracer.Ray(record.p, reflected), V.Vector3(1.0, 1.0, 1.0)))
    else Some(Scatter(RclRaytracer.Ray(record.p, refracted.value), V.Vector3(1.0, 1.0, 1.0)))
  }

  /** Entering a denser medium (`ri > 1`, the ray against the normal)
    * refraction never fails: total internal reflection happens only from
    * inside. */
  lemma DielectricEntering(ri: real, ray: Ray, record: Hit, sqrt: real -> real)
    requires IsSqrt(sqrt) && Len(ray.direction, sqrt) != 0.0 && 1.0 < ri
    requires Dot(ray.direction, record.normal) <= 0.0
    ensures Refract(ray.direction, Sides(ri, ray, record, sqrt).outNormal, Sides(ri, ray, record, sqrt).niNt, sqrt).Some?
  {
    var sd := Sides(ri, ray, record, sqrt);
    var n := sd.niNt;
    var dt := V.Dot(V.Unit(ray.direction, sqrt), sd.outNormal);
    assert 0.0 < n < 1.0 by {
      assert n * ri == 1.0;
    }
    DiscriminantPositive(n, dt);
    assert V.RefractDiscriminant(ray.direction, sd.outNormal, n, sqrt) == 1.0 - n * n * (1.0 - dt * dt);
  }

  /** `1 - n^2 (1 - dt^2) > 0` when `0 < n < 1`. */
  lemma DiscriminantPositive(n: real, dt: real)
    requires 0.0 < n < 1.0
    ensures 0.0 < 1.0 - n * n * (1.0 - dt * dt)
  {
    var nn := n * n;
    assert nn < 1.0 by {
      UnitProduct(n, n);
      assert n * n < n;
    }
    var q := dt * dt;
    assert 0.0 <= q;
    if q <= 1.0 {
      UnitProduct(nn, 1.0 - q);
      assert nn * (1.0 - q) <= nn;
    } else {
      assert nn * (1.0 - q) <= 0.0;
    }
  }

  // ------------------------------------------------------------ Sphere

  /** `Sphere.hit` (raytracer.js): the nearer root strictly inside the window,
    * else the farther one, else `null`; the root formula is the C++ one. */
  function SphereHit(center: Vec3, radius: real, r: Ray, minT: real, maxT: real, sqrt: real -> real): (h: Option<Hit>)
    requires IsSqrt(sqrt)
    ensures RclObjects.SphereDisc(center, radius, r) <= 0.0 ==> h.None?
    ensures 0.0 < RclObjects.SphereDisc(center, radius, r) ==>
      var near, far := RclObjects.SphereRoot(center, radius, r, sqrt, -1.0), RclObjects.SphereRoot(center, radius, r, sqrt, 1.0);
      && (minT < near < maxT ==> h == Some(SphereHitAt(center, radius, r, near)))
      && (!(minT < near < maxT) && minT < far < maxT ==> h == Some(SphereHitAt(center, radius, r, far)))
      && (!(minT < near < maxT) && !(minT < far < maxT) ==> h.None?)
    ensures h.Some? ==> minT < h.value.t < maxT
  {
    var oc := Sub(r.origin, center);
    var a := Dot(r.direction, r.direction);
    var b := Dot(oc, r.direction);
    var c := Dot(oc, oc) - radius * radius;
    var delta := b * b - a * c;
    assert delta == RclObjects.SphereDisc(center, radius, r);
    if delta > 0.0 then
      var t := (-b - sqrt(delta)) / a;
      assert t == RclObjects.SphereRoot(center, radius, r, sqrt, -1.0);
      if t < maxT && t > minT then Some(SphereHitAt(center, radius, r, t))
      else
        var t := (-b + sqrt(delta)) / a;
        assert t == RclObjects.SphereRoot(center, radius, r, sqrt, 1.0);
        if t < maxT && t > minT then Some(SphereHitAt(center, radius, r, t))
        else None
    else None
  }

  /** The record at root `t`: the point on the ray, and the normal that, scaled
    * by the radius, leads from the centre to it. */
  function SphereHitAt(center: Vec3, radius: real, r: Ray, t: real): (h: Hit)
    requires radius != 0.0
    ensures h.t == t && h.p == PointAt(r, t) && h.uv.None?
    ensures Muls(h.normal, radius) == Sub(h.p, center)
  {
    var p := PointAt(r, t);
    Hit(t, p, Divs(Sub(p, center), radius), None)
  }

  /** With a root strictly inside the window the sphere reports a hit no later
    * than that root. */
  lemma SphereHitNearest(center: Vec3, radius: real, r: Ray, minT: real, maxT: real, sqrt: real -> real, s: real)
    requires IsSqrt(sqrt) && 0.0 < RclObjects.SphereDisc(center, radius, r)
    requires s == RclObjects.SphereRoot(center, radius, r, sqrt, -1.0) || s == RclObjects.SphereRoot(center, radius, r, sqrt, 1.0)
    requires minT < s < maxT
    ensures SphereHit(center, radius, r, minT, maxT, sqrt).Some?
    ensures SphereHit(center, radius, r, minT, maxT, sqrt).value.t <= s
  {
    RclObjects.SphereRootsOrdered(center, radius, r, sqrt);
  }

  // ------------------------------------------------------------ HitList

  /** An object's `hit(r, minT, maxT)`. */
  type HitFn = (Ray, real, real) -> Option<Hit>

  /** The object reports only hits inside the window, ends included. */
  ghost predicate Honours(f: HitFn) {
    forall r, lo, hi :: f(r, lo, hi).Some? ==> lo <= f(r, lo, hi).value.t <= hi
  }

  /** Narrowing the window's far end to a point beyond a hit keeps a hit no
    * later than it. */
  ghost predicate Narrows(f: HitFn) {
    forall r, lo, hi, hi2 :: hi2 <= hi && f(r, lo, hi).Some? && f(r, lo, hi).value.t < hi2 ==>
      f(r, lo, hi2).Some? && f(r, lo, hi2).value.t <= f(r, lo, hi).value.t
  }

  /** `bestHit` after the loop of `HitList.hit` has visited `children`: each one
    * is asked with the window closed at the best `t` so far, and a hit replaces
    * the best one. */
  function Scan(children: seq<HitFn>, r: Ray, minT: real, maxT: real): Option<Hit>
  {
    if |children| == 0 then None
    else
      var prev := Scan(children[..|children| - 1], r, minT, maxT);
      var h := children[|children| - 1](r, minT, Closest(prev, maxT));
      if h.Some? then h else prev
  }

  /** `closest`: the best hit's `t`, or `maxT` before any hit. */
  function Closest(best: Option<Hit>, maxT: real): real {
    if best.Some? then best.value.t else maxT
  }

  /** `HitList.hit(r, minT, maxT)`. */
  method HitListHit(children: seq<HitFn>, r: Ray, minT: real, maxT: real) returns (bestHit: Option<Hit>)
    ensures bestHit == Scan(children, r, minT, maxT)
  {
    bestHit := None;
    var closest := maxT;
    for i := 0 to |children|
      invariant bestHit == Scan(children[..i], r, minT, maxT)
      invariant closest == Closest(bestHit, maxT)
    {
      assert children[..i + 1][..i] == children[..i];
      var h := children[i](r, minT, closest);
      if h.Some? {
        bestHit := h;
        closest := h.value.t;
      }
    }
    assert children[..|children|] == children;
  }

  /** The list misses exactly when every child misses the whole window. */
  lemma {:induction false} ScanMisses(children: seq<HitFn>, r: Ray, minT: real, maxT: real)
    ensures Scan(children, r, minT, maxT).None? <==> forall i :: 0 <= i < |children| ==> children[i](r, minT, maxT).None?
  {
    if |children| > 0 {
      var n := |children| - 1;
      ScanMisses(children[..n], r, minT, maxT);
      assert forall i :: 0 <= i < n ==> children[..n][i] == children[i];
    }
  }

  /** With children that honour and narrow their windows, the list's hit lies
    * in the window and is no later than any child's hit on the whole window. */
  lemma {:induction false} ScanNearest(children: seq<HitFn>, r: Ray, minT: real, maxT: real, i: int)
    requires forall k :: 0 <= k < |children| ==> Honours(children[k]) && Narrows(children[k])
    requires 0 <= i < |children| && children[i](r, minT, maxT).Some?
    ensures Scan(children, r, minT, maxT).Some?
    ensures minT <= Scan(children, r, minT, maxT).value.t <= children[i](r, minT, maxT).value.t
  {
    var n := |children| - 1;
    var prev := Scan(children[..n], r, minT, maxT);
    var f := children[n];
    var h := f(r, minT, Closest(prev, maxT));
    var s := children[i](r, minT, maxT).value.t;
    assert Honours(f) && Narrows(f);
    if i < n {
      assert children[..n][i] == children[i];
      ScanNearest(children[..n], r, minT, maxT, i);
    } else {
      if prev.Some? {
        ScanWithin(children[..n], r, minT, maxT);
        if s < prev.value.t {
          assert f(r, minT, maxT).Some? && f(r, minT, maxT).value.t < prev.value.t;
        }
      }
    }
  }

  /** A hit of the list lies in the window. */
  lemma {:induction false} ScanWithin(children: seq<HitFn>, r: Ray, minT: real, maxT: real)
    requires forall k :: 0 <= k < |children| ==> Honours(children[k])
    ensures Scan(children, r, minT, maxT).Some? ==> minT <= Scan(children, r, minT, maxT).value.t <= maxT
  {
    if |children| > 0 {
      var n := |children| - 1;
      assert forall k :: 0 <= k < n ==> children[..n][k] == children[k];
      ScanWithin(children[..n], r, minT, maxT);
      assert Honours(children[n]);
    }
  }

  /** A property every child's hits have, whatever the window, the list's hit
    * has too. */
  lemma {:induction false} ScanKeeps(children: seq<HitFn>, r: Ray, minT: real, maxT: real, P: Hit -> bool)
    requires forall k, ray, lo, hi :: 0 <= k < |children| && children[k](ray, lo, hi).Some? ==> P(children[k](ray, lo, hi).value)
    ensures Scan(children, r, minT, maxT).Some? ==> P(Scan(children, r, minT, maxT).value)
  {
    if |children| > 0 {
      var n := |children| - 1;
      assert forall k :: 0 <= k < n ==> children[..n][k] == children[k];
      ScanKeeps(children[..n], r, minT, maxT, P);
    }
  }

  /** The raytracer.js sphere, as an object of a list: it honours its window
    * and narrowing the window keeps the nearest root. */
  lemma SphereIsListable(center: Vec3, radius: real, sqrt: real -> real)
    requires IsSqrt(sqrt)
    ensures Honours((r, lo, hi) => SphereHit(center, radius, r, lo, hi, sqrt))
    ensures Narrows((r, lo, hi) => SphereHit(center, radius, r, lo, hi, sqrt))
  {
    forall r, lo, hi, hi2 | hi2 <= hi && SphereHit(center, radius, r, lo, hi, sqrt).Some?
      && SphereHit(center, radius, r, lo, hi, sqrt).value.t < hi2
      ensures SphereHit(center, radius, r, lo, hi2, sqrt).Some?
      ensures SphereHit(center, radius, r, lo, hi2, sqrt).value.t <= SphereHit(center, radius, r, lo, hi, sqrt).value.t
    {
      SphereNarrows(center, radius, r, lo, hi, hi2, sqrt);
    }
  }

  lemma SphereNarrows(center: Vec3, radius: real, r: Ray, lo: real, hi: real, hi2: real, sqrt: real -> real)
    requires IsSqrt(sqrt) && hi2 <= hi
    requires SphereHit(center, radius, r, lo, hi, sqrt).Some?
    requires SphereHit(center, radius, r, lo, hi, sqrt).value.t < hi2
    ensures SphereHit(center, radius, r, lo, hi2, sqrt).Some?
    ensures SphereHit(center, radius, r, lo, hi2, sqrt).value.t <= SphereHit(center, radius, r, lo, hi, sqrt).value.t
  {
    var h := SphereHit(center, radius, r, lo, hi, sqrt).value;
    var near, far := RclObjects.SphereRoot(center, radius, r, sqrt, -1.0), RclObjects.SphereRoot(center, radius, r, sqrt, 1.0);
    assert h.t == near || h.t == far;
    SphereHitNearest(center, radius, r, lo, hi2, sqrt, h.t);
  }
}
