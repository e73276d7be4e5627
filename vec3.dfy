/** src/core/vec3.h: a second copy of the C++ vector type under the name `vec3`.
  * Each operator is written out again from that file, and its contract proves it
  * equal to the `CoreVector3` operator with the same body. The laws proved in
  * `CoreVector3` therefore hold for `vec3` too. `CoreVector3.Vector3Var` models
  * the in-place members of both types. */
module CoreVec3 {
  import opened Numerics
  import V = CoreVector3

  type Vec3 = V.Vector3

  /** `operator[] const`: DCHECKs 0 <= i <= 2. */
  function Get(v: Vec3, i: int): (r: real)
    requires 0 <= i <= 2
    ensures r == V.Get(v, i)
  {
    if i == 0 then v.x else if i == 1 then v.y else v.z
  }

  function Equal(a: Vec3, b: Vec3): (r: bool)
    ensures r <==> a == b
  {
    a.x == b.x && a.y == b.y && a.z == b.z
  }

  function Neg(v: Vec3): (r: Vec3)
    ensures r == V.Neg(v)
  {
    V.Vector3(-v.x, -v.y, -v.z)
  }

  function Add(a: Vec3, b: Vec3): (r: Vec3)
    ensures r == V.Add(a, b)
  {
    V.Vector3(a.x + b.x, a.y + b.y, a.z + b.z)
  }

  function Sub(a: Vec3, b: Vec3): (r: Vec3)
    ensures r == V.Sub(a, b)
  {
    V.Vector3(a.x - b.x, a.y - b.y, a.z - b.z)
  }

  function Scale(a: Vec3, t: real): (r: Vec3)
    ensures r == V.Scale(a, t)
  {
    V.Vector3(a.x * t, a.y * t, a.z * t)
  }

  /** `a / t` CHECKs `t != 0`. */
  function Div(a: Vec3, t: real): (r: Vec3)
    requires t != 0.0
    ensures r == V.Div(a, t)
  {
    Scale(a, 1.0 / t)
  }

  /** `t / a` CHECKs `t != 0` and scales `a` by `1 / t`. */
  function ScalarDiv(t: real, a: Vec3): (r: Vec3)
    requires t != 0.0
    ensures r == V.Div(a, t)
  {
    Scale(a, 1.0 / t)
  }

  function Min(a: Vec3, b: Vec3): (r: Vec3)
    ensures r == V.Min(a, b)
  {
    V.Vector3(Numerics.Min(a.x, b.x), Numerics.Min(a.y, b.y), Numerics.Min(a.z, b.z))
  }

  function Max(a: Vec3, b: Vec3): (r: Vec3)
    ensures r == V.Max(a, b)
  {
    V.Vector3(Numerics.Max(a.x, b.x), Numerics.Max(a.y, b.y), Numerics.Max(a.z, b.z))
  }

  function Dot(a: Vec3, b: Vec3): (r: real)
    ensures r == V.Dot(a, b)
  {
    a.x * b.x + a.y * b.y + a.z * b.z
  }

  function Cross(a: Vec3, b: Vec3): (r: Vec3)
    ensures r == V.Cross(a, b)
  {
    V.Vector3(a.y * b.z - a.z * b.y, a.z * b.x - a.x * b.z, a.x * b.y - a.y * b.x)
  }

  /** `unit(v)` divides by `v.length()`, so it CHECKs a non-zero length. */
  function Unit(v: Vec3, sqrt: real -> real): (r: Vec3)
    requires IsSqrt(sqrt) && V.Length(v, sqrt) != 0.0
    ensures r == V.Unit(v, sqrt)
  {
    var len := sqrt(v.x * v.x + v.y * v.y + v.z * v.z);
    assert len == V.Length(v, sqrt);
    Div(v, len)
  }

  function Reflect(v: Vec3, n: Vec3): (r: Vec3)
    ensures r == V.Reflect(v, n)
  {
    Sub(v, Scale(n, 2.0 * Dot(v, n)))
  }

  function Refract(v: Vec3, normal: Vec3, nint: real, sqrt: real -> real): (r: Vec3)
    requires IsSqrt(sqrt) && V.Length(v, sqrt) != 0.0
    ensures r == V.Refract(v, normal, nint, sqrt)
  {
    var uv := Unit(v, sqrt);
    var dt := Dot(uv, normal);
    var discr := 1.0 - nint * nint * (1.0 - dt * dt);
    assert discr == V.RefractDiscriminant(v, normal, nint, sqrt);
    if discr <= 0.0 then V.Zero
    else Sub(Scale(Sub(uv, Scale(normal, dt)), nint), Scale(normal, sqrt(discr)))
  }

  /** The laws of src/core/vec3.h, carried over from the identical Vector3.h. */
  lemma Vec3Laws(a: Vec3, b: Vec3, v: Vec3, n: Vec3, t: real)
    requires t != 0.0 && Dot(n, n) == 1.0
    ensures Neg(Neg(a)) == a
    ensures Sub(Add(a, b), b) == a
    ensures Scale(Div(a, t), t) == a
    ensures Dot(a, b) == Dot(b, a)
    ensures Dot(Cross(a, b), a) == 0.0 && Dot(Cross(a, b), b) == 0.0
    ensures Reflect(Reflect(v, n), n) == v
  {
    V.NegInvolution(a);
    V.AddSubCancel(a, b);
    V.DotSymmetric(a, b);
    V.CrossOrthogonal(a, b);
    V.ReflectInvolution(v, n);
  }
}
