/** rcl/raytracer.h: rays, hits and the `NoHit` sentinel of the WebAssembly port.
  * objects.h builds hits with two more fields, the texture coordinates `uv` and
  * the material; the model keeps `uv` and leaves the material out. `operator==`
  * never reads `uv`. */
module RclRaytracer {
  import opened RclVec3
  import V = CoreVector3

  datatype Ray = Ray(origin: Vector3, direction: Vector3)

  /** `pointAt(t)`: `origin + t * direction`. */
  function PointAt(r: Ray, t: real): (p: Vector3)
    ensures t == 0.0 ==> p == r.origin
    ensures Sub(p, r.origin) == Scale(r.direction, t)
  {
    Add(r.origin, Scale(r.direction, t))
  }

  datatype Hit = Hit(t: real, p: Vector3, normal: Vector3, uv: Vector3)

  /** `NoHit`: t = 0 at the origin with a zero normal. */
  const NoHit: Hit := Hit(0.0, V.Zero, V.Zero, V.Zero)

  /** `a == b`: `t`, `p` and `normal`, entry by entry, and nothing else. */
  function HitEqual(a: Hit, b: Hit): (r: bool)
    ensures r <==> a.t == b.t && a.p == b.p && a.normal == b.normal
  {
    a.normal.x == b.normal.x && a.normal.y == b.normal.y && a.normal.z == b.normal.z
    && a.p.x == b.p.x && a.p.y == b.p.y && a.p.z == b.p.z && a.t == b.t
  }

  /** `a != b`. */
  function HitNotEqual(a: Hit, b: Hit): (r: bool)
    ensures r <==> !HitEqual(a, b)
  {
    !(HitEqual(a, b))
  }

  /** `if (h)`: the objects test a hit for truth; raytracer.h declares no
    * conversion, and the model reads it as `h != NoHit`. */
  predicate Found(h: Hit) {
    HitNotEqual(h, NoHit)
  }

  /** Hits that differ only in `uv` compare equal. */
  lemma EqualIgnoresUv(a: Hit, uv: Vector3)
    ensures HitEqual(a, a.(uv := uv))
  {
  }

  /** A genuine hit at t = 0 on the origin with a zero normal cannot be told from
    * the sentinel. */
  lemma NoHitLookalike(uv: Vector3)
    ensures !Found(Hit(0.0, V.Zero, V.Zero, uv))
  {
  }

  /** A hit with a non-zero normal is always found. */
  lemma NonZeroNormalFound(h: Hit)
    requires h.normal != V.Zero
    ensures Found(h)
  {
  }
}
