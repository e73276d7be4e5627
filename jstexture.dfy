/** texture.js: textures, whose `value(u, v, p)` gives a colour, and the
  * materials written against them. `Math.sin` is a parameter, and so is the
  * noise texture's `perlin.turb`: the JavaScript `Perlin` utils.js is meant to
  * provide is not part of this model. The materials are those of raytracer.js
  * with the albedo read from a texture at `(0, 0, p)` and the `v3` helpers in
  * place of the methods; each is proved equal to the raytracer.js material
  * given that albedo. */
module JsTexture {
  import opened Wrappers
  import opened Numerics
  import V = CoreVector3
  import opened JsUtils
  import RclRaytracer
  import JsRaytracer

  datatype Texture =
    | ConstantTexture(color: Vec3)
    | CheckerTexture(even: Texture, odd: Texture)
    | NoiseTexture(scale: real, turb: Vec3 -> real)

  /** What the code needs of `Math.sin`: it stays in [-1, 1]. */
  ghost predicate SinBounded(sin: real -> real) {
    forall x :: -1.0 <= sin(x) <= 1.0
  }

  /** The checker's `sin(10 x) sin(10 y) sin(10 z)`. */
  function Sines(p: Vec3, sin: real -> real): real {
    sin(10.0 * p.x) * sin(10.0 * p.y) * sin(10.0 * p.z)
  }

  /** `texture.value(u, v, p)`. */
  function Value(tex: Texture, u: real, v: real, p: Vec3, sin: real -> real): Vec3 {
    match tex
    case ConstantTexture(color) => color
    case CheckerTexture(even, odd) =>
      if Sines(p, sin) < 0.0 then Value(odd, u, v, p, sin) else Value(even, u, v, p, sin)
    case NoiseTexture(scale, turb) =>
      Muls(V.Vector3(1.0, 1.0, 1.0), 0.5 * (1.0 + sin(Phase(scale, turb, p))))
  }

  /** The noise texture's `scale * p.z + 10 * turb(p)`. */
  function Phase(scale: real, turb: Vec3 -> real, p: Vec3): real {
    scale * p.z + 10.0 * turb(p)
  }

  /** A constant texture ignores where it is looked up. */
  lemma ConstantIgnoresArguments(color: Vec3, u: real, v: real, p: Vec3, u2: real, v2: real, p2: Vec3, sin: real -> real)
    ensures Value(ConstantTexture(color), u, v, p, sin) == Value(ConstantTexture(color), u2, v2, p2, sin) == color
  {
  }

  /** The checker shows `odd` exactly where the sine product is negative, and
    * `even` elsewhere, a product of zero included. */
  lemma CheckerPicks(even: Texture, odd: Texture, u: real, v: real, p: Vec3, sin: real -> real)
    ensures Sines(p, sin) < 0.0 ==> Value(CheckerTexture(even, odd), u, v, p, sin) == Value(odd, u, v, p, sin)
    ensures 0.0 <= Sines(p, sin) ==> Value(CheckerTexture(even, odd), u, v, p, sin) == Value(even, u, v, p, sin)
  {
  }

  /** The noise texture is a grey, and with `sin` in [-1, 1] a grey in [0, 1]. */
  lemma NoiseIsGrey(scale: real, turb: Vec3 -> real, u: real, v: real, p: Vec3, sin: real -> real)
    ensures var c := Value(NoiseTexture(scale, turb), u, v, p, sin);
      c.x == c.y == c.z
    ensures SinBounded(sin) ==> 0.0 <= Value(NoiseTexture(scale, turb), u, v, p, sin).x <= 1.0
  {
    var k := 0.5 * (1.0 + sin(Phase(scale, turb, p)));
    assert Value(NoiseTexture(scale, turb), u, v, p, sin) == Muls(V.Vector3(1.0, 1.0, 1.0), k);
    assert Muls(V.Vector3(1.0, 1.0, 1.0), k).x == k;
  }

  /** A texture built from greys in [0, 1] gives colours in [0, 1]. */
  predicate UnitColor(c: Vec3) {
    0.0 <= c.x <= 1.0 && 0.0 <= c.y <= 1.0 && 0.0 <= c.z <= 1.0
  }

  predicate UnitColors(tex: Texture) {
    match tex
    case ConstantTexture(color) => UnitColor(color)
    case CheckerTexture(even, odd) => UnitColors(even) && UnitColors(odd)
    case NoiseTexture(_, _) => true
  }

  lemma {:induction false} ValueInUnit(tex: Texture, u: real, v: real, p: Vec3, sin: real -> real)
    requires SinBounded(sin) && UnitColors(tex)
    ensures UnitColor(Value(tex, u, v, p, sin))
  {
    match tex
    case ConstantTexture(_) =>
    case CheckerTexture(even, odd) =>
      ValueInUnit(even, u, v, p, sin);
      ValueInUnit(odd, u, v, p, sin);
    case NoiseTexture(scale, turb) =>
      NoiseIsGrey(scale, turb, u, v, p, sin);
  }

  /** No texture reads `u` or `v`: every `value` passes them on or drops them. */
  lemma {:induction false} ValueIgnoresUv(tex: Texture, u: real, v: real, u2: real, v2: real, p: Vec3, sin: real -> real)
    ensures Value(tex, u, v, p, sin) == Value(tex, u2, v2, p, sin)
  {
    match tex
    case ConstantTexture(_) =>
    case CheckerTexture(even, odd) =>
      ValueIgnoresUv(even, u, v, u2, v2, p, sin);
      ValueIgnoresUv(odd, u, v, u2, v2, p, sin);
    case NoiseTexture(_, _) =>
  }

  /** `c` is a colour `tex` can show: the colour of one of its constant
    * textures, or a grey where it holds a noise texture. */
  predicate Shows(tex: Texture, c: Vec3) {
    match tex
    case ConstantTexture(color) => c == color
    case CheckerTexture(even, odd) => Shows(even, c) || Shows(odd, c)
    case NoiseTexture(_, _) => c.x == c.y == c.z
  }

  /** Whatever the nesting of checkers, a lookup shows the colour of one leaf
    * texture: a constant's colour or a noise grey. */
  lemma {:induction false} ValueFromLeaves(tex: Texture, u: real, v: real, p: Vec3, sin: real -> real)
    ensures Shows(tex, Value(tex, u, v, p, sin))
  {
    match tex
    case ConstantTexture(_) =>
    case CheckerTexture(even, odd) =>
      ValueFromLeaves(even, u, v, p, sin);
      ValueFromLeaves(odd, u, v, p, sin);
    case NoiseTexture(scale, turb) =>
      NoiseIsGrey(scale, turb, u, v, p, sin);
  }

  /** `Lambertian.scatter`: never `null`; the raytracer.js Lambertian with the
    * albedo looked up at `(0, 0, p)`, whatever `uv` the record has. */
  function Lambertian(albedo: Texture, record: JsRaytracer.Hit, sample: Vec3, sin: real -> real): (s: Option<JsRaytracer.Scatter>)
    ensures s == JsRaytracer.Lambertian(Value(albedo, 0.0, 0.0, record.p, sin), record, sample)
    ensures s.Some? && s.value.attenuation == Value(albedo, 0.0, 0.0, record.p, sin)
  {
    var target := Add(Add(record.p, record.normal), sample);
    Some(JsRaytracer.Scatter(RclRaytracer.Ray(record.p, Sub(target, record.p)), Value(albedo, 0.0, 0.0, record.p, sin)))
  }

  /** `Metal.scatter`, with the fuzz clamped by the constructor: `null` exactly
    * when the raytracer.js Metal is. */
  function Metal(albedo: Texture, fuzz: real, ray: Ray, record: JsRaytracer.Hit, sample: Vec3,
                 sin: real -> real, sqrt: real -> real): (s: Option<JsRaytracer.Scatter>)
    requires IsSqrt(sqrt) && Len(ray.direction, sqrt) != 0.0
    ensures s == JsRaytracer.Metal(Value(albedo, 0.0, 0.0, record.p, sin), JsRaytracer.MetalFuzz(fuzz), ray, record, sample, sqrt)
    ensures s.None? <==> Dot(JsRaytracer.MetalDirection(JsRaytracer.MetalFuzz(fuzz), ray, record, sample, sqrt), record.normal) <= 0.0
  {
    var f := JsRaytracer.MetalFuzz(fuzz);
    var reflected := Reflect(Unit(ray.direction, sqrt), record.normal);
    var scattered := RclRaytracer.Ray(record.p, Add(reflected, Muls(sample, f)));
    if Dot(scattered.direction, record.normal) > 0.0 then
      Some(JsRaytracer.Scatter(scattered, Value(albedo, 0.0, 0.0, record.p, sin)))
    else None
  }

  /** `Dielectric.schlick`: the raytracer.js formula. */
  function Schlick(cosine: real, refIdx: real): (r: real)
    requires refIdx != -1.0
    ensures r == JsRaytracer.Schlick(cosine, refIdx)
    ensures 0.0 <= cosine <= 1.0 && 0.0 < refIdx ==> 0.0 <= r <= 1.0
  {
    var r0 := (1.0 - refIdx) / (1.0 + refIdx);
    var r0 := r0 * r0;
    r0 + (1.0 - r0) * Pow5(1.0 - cosine)
  }

  /** `Dielectric.scatter`: the raytracer.js Dielectric, so never `null`, white,
    * and reflecting whenever refraction fails. */
  function Dielectric(ri: real, ray: Ray, record: JsRaytracer.Hit, u: real, sqrt: real -> real): (s: Option<JsRaytracer.Scatter>)
    requires IsSqrt(sqrt) && Len(ray.direction, sqrt) != 0.0 && ri != 0.0 && ri != -1.0
    requires 0.0 <= u < 1.0
    ensures s == JsRaytracer.Dielectric(ri, ray, record, u, sqrt)
    ensures s.Some? && s.value.attenuation == V.Vector3(1.0, 1.0, 1.0)
    ensures var sd := JsRaytracer.Sides(ri, ray, record, sqrt);
      Refract(ray.direction, sd.outNormal, sd.niNt, sqrt).None? ==> s.value.scattered.direction == Reflect(ray.direction, record.normal)
  {
    var reflected := Reflect(ray.direction, record.normal);
    var dn := Dot(ray.direction, record.normal);
    var len := Len(ray.direction, sqrt);
    var outNormal := if dn > 0.0 then Muls(record.normal, -1.0) else record.normal;
    var niNt := if dn > 0.0 then ri else 1.0 / ri;
    var cosine := if dn > 0.0 then ri * dn / len else -ri * dn / len;
    assert JsRaytracer.Sides(ri, ray, record, sqrt) == JsRaytracer.Side(outNormal, niNt, cosine);
    var refracted := Refract(ray.direction, outNormal, niNt, sqrt);
    var reflectProb := if refracted.Some? then Schlick(cosine, ri) else 1.0;
    if u < reflectProb then
      Some(JsRaytracer.Scatter(RclRaytracer.Ray(record.p, reflected), V.Vector3(1.0, 1.0, 1.0)))
    else
      Some(JsRaytracer.Scatter(RclRaytracer.Ray(record.p, refracted.value), V.Vector3(1.0, 1.0, 1.0)))
  }
}
