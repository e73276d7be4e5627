/** utils.js: the JavaScript prototype's vector and ray types and its two
  * rejection samplers. `Vec3` is an `Array` of three numbers whose methods all
  * return new vectors, so it is the `Vector3` value here; each method is written
  * out from utils.js and its contract ties it to the C++ operator with the same
  * meaning, whose laws then carry over. `Math.random()` is an oracle: the
  * samplers take the sequence of values it returns. */
module JsUtils {
  import opened Wrappers
  import opened Numerics
  import V = CoreVector3
  import RclVec3
  import RclRaytracer

  type Vec3 = V.Vector3

  /** `this[i]` on the three-element array. */
  function Index(v: Vec3, i: int): (r: real)
    requires 0 <= i < 3
    ensures r == V.Get(v, i)
  {
    if i == 0 then v.x else if i == 1 then v.y else v.z
  }

  /** The getters `x`, `y`, `z` read entries 0, 1, 2, and so do `r`, `g`, `b`. */
  function X(v: Vec3): (r: real) ensures r == Index(v, 0) { v.x }
  function Y(v: Vec3): (r: real) ensures r == Index(v, 1) { v.y }
  function Z(v: Vec3): (r: real) ensures r == Index(v, 2) { v.z }
  function R(v: Vec3): (r: real) ensures r == X(v) { v.x }
  function G(v: Vec3): (r: real) ensures r == Y(v) { v.y }
  function B(v: Vec3): (r: real) ensures r == Z(v) { v.z }

  /** `add`, `sub`: entry by entry; `sub` undoes `add`. */
  function Add(a: Vec3, o: Vec3): (r: Vec3)
    ensures r == V.Add(a, o)
  {
    V.Vector3(a.x + o.x, a.y + o.y, a.z + o.z)
  }

  function Sub(a: Vec3, o: Vec3): (r: Vec3)
    ensures r == V.Sub(a, o)
    ensures Add(r, o) == a
  {
    V.Vector3(a.x - o.x, a.y - o.y, a.z - o.z)
  }

  /** `mul`: the entry-by-entry product. */
  function Mul(a: Vec3, o: Vec3): (r: Vec3)
    ensures r == RclVec3.Mul(a, o)
  {
    V.Vector3(a.x * o.x, a.y * o.y, a.z * o.z)
  }

  /** `div`: the entry-by-entry quotient, which undoes `mul`. JavaScript would
    * give an infinity or NaN for a zero entry; the model asks for none. */
  function Div(a: Vec3, o: Vec3): (r: Vec3)
    requires o.x != 0.0 && o.y != 0.0 && o.z != 0.0
    ensures Mul(r, o) == a
  {
    V.Vector3(a.x / o.x, a.y / o.y, a.z / o.z)
  }

  /** `muls`, `divs`: the scalar on every entry; `divs` undoes `muls`. */
  function Muls(a: Vec3, t: real): (r: Vec3)
    ensures r == V.Scale(a, t)
  {
    V.Vector3(a.x * t, a.y * t, a.z * t)
  }

  function Divs(a: Vec3, t: real): (r: Vec3)
    requires t != 0.0
    ensures Muls(r, t) == a
  {
    V.Vector3(a.x / t, a.y / t, a.z / t)
  }

  /** `dot` is the C++ `dot`, so it is symmetric. */
  function Dot(a: Vec3, o: Vec3): (r: real)
    ensures r == V.Dot(a, o)
    ensures r == V.Dot(o, a)
  {
    a.x * o.x + a.y * o.y + a.z * o.z
  }

  /** `cross` is the C++ `cross`: orthogonal to both arguments. */
  function Cross(a: Vec3, o: Vec3): (r: Vec3)
    ensures r == V.Cross(a, o)
    ensures Dot(r, a) == 0.0 && Dot(r, o) == 0.0
  {
    V.CrossOrthogonal(a, o);
    V.Vector3(a.y * o.z - a.z * o.y, a.z * o.x - a.x * o.z, a.x * o.y - a.y * o.x)
  }

  /** `sqlen` and `len`. */
  function Sqlen(v: Vec3): (r: real)
    ensures r == V.LenSq(v) && 0.0 <= r
  {
    v.x * v.x + v.y * v.y + v.z * v.z
  }

  function Len(v: Vec3, sqrt: real -> real): (r: real)
    requires IsSqrt(sqrt)
    ensures 0.0 <= r && r * r == Sqlen(v)
    ensures r == V.Length(v, sqrt)
  {
    sqrt(Sqlen(v))
  }

  /** `unit()`: `divs(len)`; a zero vector would give NaN entries. */
  function Unit(v: Vec3, sqrt: real -> real): (r: Vec3)
    requires IsSqrt(sqrt) && Len(v, sqrt) != 0.0
    ensures r == V.Unit(v, sqrt)
    ensures Sqlen(r) == 1.0
  {
    Divs(v, Len(v, sqrt))
  }

  /** `reflect(normal)`: `this - normal * (2 * dot(this, normal))`, the C++
    * `reflect`. */
  function Reflect(v: Vec3, normal: Vec3): (r: Vec3)
    ensures r == V.Reflect(v, normal)
  {
    assert Dot(v, normal) * 2.0 == 2.0 * Dot(v, normal);
    Sub(v, Muls(normal, Dot(v, normal) * 2.0))
  }

  /** Against a unit normal, reflecting twice gives the vector back. */
  lemma ReflectInvolution(v: Vec3, normal: Vec3)
    requires Sqlen(normal) == 1.0
    ensures Reflect(Reflect(v, normal), normal) == v
  {
    V.ReflectInvolution(v, normal);
  }

  /** `refract(normal, niNt)`: `null` exactly when the discriminant is not
    * positive; otherwise the C++ refracted direction, a unit vector against a
    * unit normal. */
  function Refract(v: Vec3, normal: Vec3, niNt: real, sqrt: real -> real): (r: Option<Vec3>)
    requires IsSqrt(sqrt) && Len(v, sqrt) != 0.0
    ensures r.None? <==> V.RefractDiscriminant(v, normal, niNt, sqrt) <= 0.0
    ensures r.Some? ==> r.value == V.Refract(v, normal, niNt, sqrt)
    ensures r.Some? && Sqlen(normal) == 1.0 ==> Sqlen(r.value) == 1.0
  {
    var uv := Unit(v, sqrt);
    var dt := Dot(uv, normal);
    var discriminant := 1.0 - niNt * niNt * (1.0 - dt * dt);
    if discriminant <= 0.0 then None
    else
      RefractedIsUnit(v, normal, niNt, sqrt);
      Some(Sub(Muls(Sub(uv, Muls(normal, dt)), niNt), Muls(normal, sqrt(discriminant))))
  }

  lemma RefractedIsUnit(v: Vec3, normal: Vec3, niNt: real, sqrt: real -> real)
    requires IsSqrt(sqrt) && Len(v, sqrt) != 0.0 && 0.0 < V.RefractDiscriminant(v, normal, niNt, sqrt)
    ensures Sqlen(normal) == 1.0 ==> Sqlen(V.Refract(v, normal, niNt, sqrt)) == 1.0
  {
    if Sqlen(normal) == 1.0 {
      V.RefractIsUnit(v, normal, niNt, sqrt);
    }
  }

  /** `Ray(a, b)` and its `pointAt(t)`: `a + b * t`. */
  type Ray = RclRaytracer.Ray

  function PointAt(r: Ray, t: real): (p: Vec3)
    ensures p == RclRaytracer.PointAt(r, t)
    ensures t == 0.0 ==> p == r.origin
  {
    Add(r.origin, Muls(r.direction, t))
  }

  /** One candidate of the samplers: `2 * Math.random() - 1`. */
  function Centered(u: real): (c: real)
    ensures 0.0 <= u < 1.0 ==> -1.0 <= c < 1.0
  {
    2.0 * u - 1.0
  }

  /** The candidate point drawn from three `Math.random()` results. */
  function SphereCandidate(d: Vec3): Vec3 {
    V.Vector3(Centered(d.x), Centered(d.y), Centered(d.z))
  }

  predicate InUnit(d: Vec3) {
    0.0 <= d.x < 1.0 && 0.0 <= d.y < 1.0 && 0.0 <= d.z < 1.0
  }

  /** `randomInUnitSphere()`: candidates are drawn until one has squared length
    * below 1. `draws[k]` holds the three values of the `k`-th attempt, and some
    * attempt must succeed for the loop to end. The result is the first accepted
    * candidate. */
  method RandomInUnitSphere(draws: seq<Vec3>) returns (p: Vec3, used: nat)
    requires forall k :: 0 <= k < |draws| ==> InUnit(draws[k])
    requires exists k :: 0 <= k < |draws| && Sqlen(SphereCandidate(draws[k])) < 1.0
    ensures 0 < used <= |draws| && p == SphereCandidate(draws[used - 1])
    ensures Sqlen(p) < 1.0
    ensures forall k :: 0 <= k < used - 1 ==> Sqlen(SphereCandidate(draws[k])) >= 1.0
  {
    used := 0;
    p := SphereCandidate(draws[used]);
    used := used + 1;
    while Sqlen(p) >= 1.0
      invariant 0 < used <= |draws| && p == SphereCandidate(draws[used - 1])
      invariant forall k :: 0 <= k < used ==> Sqlen(SphereCandidate(draws[k])) >= 1.0 || k == used - 1
      invariant exists k :: used - 1 <= k < |draws| && Sqlen(SphereCandidate(draws[k])) < 1.0
      decreases |draws| - used
    {
      p := SphereCandidate(draws[used]);
      used := used + 1;
    }
  }

  /** The candidate point drawn from two `Math.random()` results, in the plane
    * `z = 0`. */
  function DiskCandidate(d: (real, real)): (c: Vec3)
    ensures c.z == 0.0
  {
    V.Vector3(Centered(d.0), Centered(d.1), 0.0)
  }

  /** `randomInUnitDisk()`: like `randomInUnitSphere` with two draws per attempt
    * and `z = 0`. */
  method RandomInUnitDisk(draws: seq<(real, real)>) returns (p: Vec3, used: nat)
    requires forall k :: 0 <= k < |draws| ==> 0.0 <= draws[k].0 < 1.0 && 0.0 <= draws[k].1 < 1.0
    requires exists k :: 0 <= k < |draws| && Sqlen(DiskCandidate(draws[k])) < 1.0
    ensures 0 < used <= |draws| && p == DiskCandidate(draws[used - 1])
    ensures p.z == 0.0 && Sqlen(p) < 1.0
    ensures forall k :: 0 <= k < used - 1 ==> Sqlen(DiskCandidate(draws[k])) >= 1.0
  {
    used := 0;
    p := DiskCandidate(draws[used]);
    used := used + 1;
    while Sqlen(p) >= 1.0
      invariant 0 < used <= |draws| && p == DiskCandidate(draws[used - 1])
      invariant forall k :: 0 <= k < used ==> Sqlen(DiskCandidate(draws[k])) >= 1.0 || k == used - 1
      invariant exists k :: used - 1 <= k < |draws| && Sqlen(DiskCandidate(draws[k])) < 1.0
      decreases |draws| - used
    {
      p := DiskCandidate(draws[used]);
      used := used + 1;
    }
  }
}
