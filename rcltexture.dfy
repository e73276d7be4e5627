/** rcl/texture.h: the materials of the WebAssembly port. `scatter` is a function
  * of the incoming ray and the hit; the samples `randomInUnitSphere()` and
  * `frand()` draw are parameters. rcl/vec3.h shows no `reflect` or `refract`:
  * the model takes the ones of src/core/Vector3.h, which compute the same
  * formulas, and reads the test `refracted ?` as "not the zero vector". */
module RclTexture {
  import opened Numerics
  import opened RclVec3
  import opened RclRaytracer
  import V = CoreVector3
  import ShapesSphere

  datatype Scatter = Scatter(scattered: Ray, attenuation: Vector3)

  /** `operator bool`: some component of the scattered direction is non-zero. */
  function Truthy(s: Scatter): (b: bool)
    ensures b <==> s.scattered.direction != V.Zero
  {
    s.scattered.direction.x != 0.0 || s.scattered.direction.y != 0.0 || s.scattered.direction.z != 0.0
  }

  /** `NoScatter`: everything zero, so it reads as false. */
  const NoScatter: Scatter := Scatter(Ray(V.Zero, V.Zero), V.Zero)

  const White: Vector3 := V.Vector3(1.0, 1.0, 1.0)

  /** `Lambertian::scatter`: from the hit point towards `hit.p + hit.normal +
    * sample`, weighted by the albedo. The direction is `normal + sample`, so a
    * sample opposite to the normal yields a falsy scatter. */
  function Lambertian(albedo: Vector3, hit: Hit, sample: Vector3): (s: Scatter)
    ensures s.scattered.origin == hit.p && s.attenuation == albedo
    ensures s.scattered.direction == V.Add(hit.normal, sample)
    ensures Truthy(s) <==> sample != V.Neg(hit.normal)
  {
    var target := Add(Add(hit.p, hit.normal), sample);
    var s := Scatter(Ray(hit.p, Sub(target, hit.p)), albedo);
    assert Sub(target, hit.p) == V.Add(hit.normal, sample);
    s
  }

  /** `Metal::scatter`: the unit incoming direction reflected about the normal,
    * perturbed by `fuzz` times the sample (the fuzz is used as given, without a
    * clamp), and absorbed unless it leaves on the normal's side. */
  function Metal(albedo: Vector3, fuzz: real, ray: Ray, hit: Hit, sample: Vector3, sqrt: real -> real): (s: Scatter)
    requires IsSqrt(sqrt) && ray.direction != V.Zero
    ensures var d := V.Add(V.Reflect(Unit(ray.direction, sqrt), hit.normal), V.Scale(sample, fuzz));
      && (s == NoScatter <==> V.Dot(d, hit.normal) <= 0.0)
      && (s != NoScatter ==> s == Scatter(Ray(hit.p, d), albedo) && Truthy(s))
  {
    assert Length(ray.direction, sqrt) != 0.0;
    var reflected := V.Reflect(Unit(ray.direction, sqrt), hit.normal);
    var scattered := Ray(hit.p, Add(reflected, Scale(sample, fuzz)));
    if Dot(scattered.direction, hit.normal) > 0.0 then
      LeavingIsNonZero(scattered.direction, hit.normal);
      Scatter(scattered, albedo)
    else
      NoScatter
  }

  /** A direction with a positive component along the normal is not zero. */
  lemma LeavingIsNonZero(d: Vector3, n: Vector3)
    requires 0.0 < V.Dot(d, n)
    ensures d != V.Zero
  {
    if d == V.Zero {
      V.DotSymmetric(d, n);
      V.ZeroAbsorbs(n, 0.0);
    }
  }

  /** `schlick(cosine, refIdx)`: Schlick's approximation of the reflectance. */
  function Schlick(cosine: real, refIdx: real): real
    requires refIdx != -1.0
  {
    var r := (1.0 - refIdx) / (1.0 + refIdx);
    var r0 := r * r;
    r0 + (1.0 - r0) * Pow5(1.0 - cosine)
  }

  /** For a cosine in [0, 1] and a positive index the reflectance is a
    * probability. */
  lemma SchlickInUnit(cosine: real, refIdx: real)
    requires 0.0 <= cosine <= 1.0 && 0.0 < refIdx
    ensures 0.0 <= Schlick(cosine, refIdx) <= 1.0
  {
    var r := (1.0 - refIdx) / (1.0 + refIdx);
    RatioWithin(1.0 - refIdx, 1.0 + refIdx);
    var m := if r < 0.0 then -r else r;
    assert m * m == r * r;
    UnitProduct(m, m);
    var r0, p := r * r, Pow5(1.0 - cosine);
    Blend(r0, p);
    assert Schlick(cosine, refIdx) == r0 + (1.0 - r0) * p;
  }

  /** `p / d` lies in [-1, 1] when `|p| <= d`. */
  lemma RatioWithin(p: real, d: real)
    requires 0.0 < d && -d <= p <= d
    ensures -1.0 <= p / d <= 1.0
  {
    ShapesSphere.DivideOrdered(p, d, d);
    ShapesSphere.DivideOrdered(-d, p, d);
    assert d / d == 1.0;
    assert -d / d == -1.0;
  }

  /** `a + (1 - a) * q` stays in [0, 1] for `a` and `q` in [0, 1]. */
  lemma Blend(a: real, q: real)
    requires 0.0 <= a <= 1.0 && 0.0 <= q <= 1.0
    ensures 0.0 <= a + (1.0 - a) * q
    ensures a + (1.0 - a) * q <= 1.0
  {
    var x := 1.0 - a;
    UnitProduct(x, q);
    var m := x * q;
    assert 0.0 <= m <= x;
    assert (1.0 - a) * q == m;
  }

  /** The outward normal, the index ratio and the cosine `Dielectric::scatter`
    * picks from the side the ray arrives on. */
  datatype Side = Side(outnormal: Vector3, nint: real, cosine: real)

  function Sides(refidx: real, ray: Ray, hit: Hit, sqrt: real -> real): (sd: Side)
    requires IsSqrt(sqrt) && ray.direction != V.Zero && refidx != 0.0
    ensures V.Dot(ray.direction, sd.outnormal) <= 0.0
    ensures 0.0 < V.Dot(ray.direction, hit.normal) ==> sd.outnormal == V.Neg(hit.normal) && sd.nint == refidx
    ensures V.Dot(ray.direction, hit.normal) <= 0.0 ==> sd.outnormal == hit.normal && sd.nint == 1.0 / refidx
    ensures 0.0 < refidx ==> 0.0 <= sd.cosine
  {
    var len := Length(ray.direction, sqrt);
    var dn := Dot(ray.direction, hit.normal);
    assert 0.0 < len;
    if dn > 0.0 then
      NegatedSide(ray.direction, hit.normal);
      if 0.0 < refidx then
        PositiveCosine(refidx, dn, len);
        Side(Neg(hit.normal), refidx, refidx * dn / len)
      else
        Side(Neg(hit.normal), refidx, refidx * dn / len)
    else
      if 0.0 < refidx then
        PositiveCosine(refidx, -dn, len);
        assert -refidx * dn == refidx * -dn;
        Side(hit.normal, 1.0 / refidx, -refidx * dn / len)
      else
        Side(hit.normal, 1.0 / refidx, -refidx * dn / len)
  }

  lemma PositiveCosine(k: real, d: real, len: real)
    requires 0.0 < k && 0.0 <= d && 0.0 < len
    ensures 0.0 <= k * d / len
  {
    assert 0.0 <= k * d;
  }

  lemma NegatedSide(d: Vector3, n: Vector3)
    ensures V.Dot(d, V.Neg(n)) == -V.Dot(d, n)
  {
  }

  /** `Dielectric::scatter`: attenuation white from the hit point; the reflected
    * ray when `u = frand()` falls below the reflectance (always when refraction
    * fails, unless `u` is exactly 1), else the refracted one. */
  function Dielectric(refidx: real, ray: Ray, hit: Hit, u: real, sqrt: real -> real): (s: Scatter)
    requires IsSqrt(sqrt) && ray.direction != V.Zero && refidx != 0.0 && refidx != -1.0
    requires 0.0 <= u <= 1.0
    ensures s.attenuation == White && s.scattered.origin == hit.p
    ensures var sd := Sides(refidx, ray, hit, sqrt);
      var refracted := V.Refract(ray.direction, sd.outnormal, sd.nint, sqrt);
      && (s.scattered.direction == V.Reflect(ray.direction, hit.normal) || s.scattered.direction == refracted)
      && (refracted == V.Zero && u < 1.0 ==> s.scattered.direction == V.Reflect(ray.direction, hit.normal))
      && (refracted == V.Zero && u == 1.0 ==> !Truthy(s))
      && (refracted != V.Zero && u < Schlick(sd.cosine, refidx) ==> s.scattered.direction == V.Reflect(ray.direction, hit.normal))
      && (refracted != V.Zero && Schlick(sd.cosine, refidx) <= u ==> s.scattered.direction == refracted)
  {
    assert Length(ray.direction, sqrt) != 0.0;
    var reflected := V.Reflect(ray.direction, hit.normal);
    var sd := Sides(refidx, ray, hit, sqrt);
    var refracted := V.Refract(ray.direction, sd.outnormal, sd.nint, sqrt);
    var reflectProb := if refracted != V.Zero then Schlick(sd.cosine, refidx) else 1.0;
    if u < reflectProb then
      Scatter(Ray(hit.p, reflected), White)
    else
      Scatter(Ray(hit.p, refracted), White)
  }

  /** Against a unit outward normal refraction fails exactly when the
    * discriminant is not positive. */
  lemma DielectricRefractFails(refidx: real, ray: Ray, hit: Hit, sqrt: real -> real)
    requires IsSqrt(sqrt) && ray.direction != V.Zero && refidx != 0.0 && V.Dot(hit.normal, hit.normal) == 1.0
    ensures var sd := Sides(refidx, ray, hit, sqrt);
      (V.Refract(ray.direction, sd.outnormal, sd.nint, sqrt) == V.Zero
       <==> V.RefractDiscriminant(ray.direction, sd.outnormal, sd.nint, sqrt) <= 0.0)
  {
    var sd := Sides(refidx, ray, hit, sqrt);
    assert V.Length(ray.direction, sqrt) != 0.0;
    assert V.Dot(sd.outnormal, sd.outnormal) == 1.0;
    if 0.0 < V.RefractDiscriminant(ray.direction, sd.outnormal, sd.nint, sqrt) {
      V.RefractIsUnit(ray.direction, sd.outnormal, sd.nint, sqrt);
    }
  }
}
