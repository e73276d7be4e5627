/** src/core/Vector3.h: the three-float vector of the C++ rewrite. The operators are
  * pure functions on the `Vector3` value. `Vector3Var` models a variable whose
  * fields `normalize()` and the compound operators update in place. */
module CoreVector3 {
  import opened Numerics

  datatype Vector3 = Vector3(x: real, y: real, z: real)

  const Zero: Vector3 := Vector3(0.0, 0.0, 0.0)

  /** `operator[] const`: DCHECKs 0 <= i <= 2 and selects x, y or z. */
  function Get(v: Vector3, i: int): real
    requires 0 <= i <= 2
  {
    if i == 0 then v.x else if i == 1 then v.y else v.z
  }

  /** Assigning `a` through the reference returned by the non-const `operator[]`. */
  function With(v: Vector3, i: int, a: real): (r: Vector3)
    requires 0 <= i <= 2
    ensures Get(r, i) == a
    ensures forall j :: 0 <= j <= 2 && j != i ==> Get(r, j) == Get(v, j)
  {
    if i == 0 then v.(x := a) else if i == 1 then v.(y := a) else v.(z := a)
  }

  /** The three reads through `operator[]` determine the vector. */
  lemma ComponentsDetermine(a: Vector3, b: Vector3)
    requires forall i :: 0 <= i <= 2 ==> Get(a, i) == Get(b, i)
    ensures a == b
  {
    assert Get(a, 0) == Get(b, 0) && Get(a, 1) == Get(b, 1) && Get(a, 2) == Get(b, 2);
  }

  /** `operator==` compares the three components, which is equality of the values. */
  function Equal(a: Vector3, b: Vector3): (r: bool)
    ensures r <==> a == b
  {
    a.x == b.x && a.y == b.y && a.z == b.z
  }

  /** `operator!=` is the negation of `operator==`. */
  function NotEqual(a: Vector3, b: Vector3): (r: bool)
    ensures r <==> a != b
  {
    !Equal(a, b)
  }

  function Add(a: Vector3, b: Vector3): Vector3 {
    Vector3(a.x + b.x, a.y + b.y, a.z + b.z)
  }

  function Sub(a: Vector3, b: Vector3): Vector3 {
    Vector3(a.x - b.x, a.y - b.y, a.z - b.z)
  }

  /** Unary `operator-`: the additive inverse. */
  function Neg(v: Vector3): (r: Vector3)
    ensures Add(v, r) == Zero
  {
    Vector3(-v.x, -v.y, -v.z)
  }

  lemma NegInvolution(v: Vector3)
    ensures Neg(Neg(v)) == v
  {
  }

  /** `a * t` and `t * a` both scale every component by `t`. */
  function Scale(a: Vector3, t: real): Vector3 {
    Vector3(a.x * t, a.y * t, a.z * t)
  }

  lemma AddSubCancel(a: Vector3, b: Vector3)
    ensures Sub(Add(a, b), b) == a
    ensures Add(Sub(a, b), b) == a
  {
  }

  lemma AddCommutes(a: Vector3, b: Vector3)
    ensures Add(a, b) == Add(b, a)
  {
  }

  lemma SubIsAddNeg(a: Vector3, b: Vector3)
    ensures Sub(a, b) == Add(a, Neg(b))
  {
  }

  /** `a / t` CHECKs `t != 0` and multiplies by `1 / t`; scaling back by `t` undoes it. */
  function Div(a: Vector3, t: real): (r: Vector3)
    requires t != 0.0
    ensures Scale(r, t) == a
  {
    var k := 1.0 / t;
    assert k * t == 1.0;
    assert a.x * k * t == a.x * (k * t);
    assert a.y * k * t == a.y * (k * t);
    assert a.z * k * t == a.z * (k * t);
    Scale(a, k)
  }

  /** `t / a` (float first) also CHECKs `t != 0` and returns `a * (1 / t)`: it is
    * the same vector as `a / t`, not a componentwise reciprocal. */
  function ScalarDiv(t: real, a: Vector3): (r: Vector3)
    requires t != 0.0
    ensures r == Div(a, t)
  {
    Scale(a, 1.0 / t)
  }

  lemma ScalarDivScalesInsteadOfInverting()
    ensures ScalarDiv(2.0, Vector3(1.0, 1.0, 4.0)) == Vector3(0.5, 0.5, 2.0)
    ensures ScalarDiv(2.0, Vector3(1.0, 1.0, 4.0)) != Vector3(2.0 / 1.0, 2.0 / 1.0, 2.0 / 4.0)
  {
  }

  /** `min(a, b)`: componentwise `std::min`, the greatest lower bound of both. */
  function Min(a: Vector3, b: Vector3): (r: Vector3)
    ensures r.x <= a.x && r.x <= b.x && (r.x == a.x || r.x == b.x)
    ensures r.y <= a.y && r.y <= b.y && (r.y == a.y || r.y == b.y)
    ensures r.z <= a.z && r.z <= b.z && (r.z == a.z || r.z == b.z)
  {
    Vector3(Numerics.Min(a.x, b.x), Numerics.Min(a.y, b.y), Numerics.Min(a.z, b.z))
  }

  /** `max(a, b)`: componentwise `std::max`, the least upper bound of both. */
  function Max(a: Vector3, b: Vector3): (r: Vector3)
    ensures a.x <= r.x && b.x <= r.x && (r.x == a.x || r.x == b.x)
    ensures a.y <= r.y && b.y <= r.y && (r.y == a.y || r.y == b.y)
    ensures a.z <= r.z && b.z <= r.z && (r.z == a.z || r.z == b.z)
  {
    Vector3(Numerics.Max(a.x, b.x), Numerics.Max(a.y, b.y), Numerics.Max(a.z, b.z))
  }

  function Dot(a: Vector3, b: Vector3): real {
    a.x * b.x + a.y * b.y + a.z * b.z
  }

  function Cross(a: Vector3, b: Vector3): Vector3 {
    Vector3(a.y * b.z - a.z * b.y, a.z * b.x - a.x * b.z, a.x * b.y - a.y * b.x)
  }

  lemma DotSymmetric(a: Vector3, b: Vector3)
    ensures Dot(a, b) == Dot(b, a)
  {
  }

  /** The zero vector annihilates dot products and stays zero under scaling. */
  lemma ZeroAbsorbs(v: Vector3, k: real)
    ensures Dot(v, Zero) == 0.0 && Scale(Zero, k) == Zero
  {
  }

  lemma CrossOrthogonal(a: Vector3, b: Vector3)
    ensures Dot(Cross(a, b), a) == 0.0
    ensures Dot(Cross(a, b), b) == 0.0
  {
  }

  /** `lensq()`: the squared length, zero only for the zero vector. */
  function LenSq(v: Vector3): (r: real)
    ensures 0.0 <= r
    ensures r == 0.0 <==> v == Zero
    ensures r == Dot(v, v)
  {
    var r := v.x * v.x + v.y * v.y + v.z * v.z;
    assert v.x * v.x >= 0.0 && v.y * v.y >= 0.0 && v.z * v.z >= 0.0;
    if r == 0.0 then
      SquareZero(v.x);
      SquareZero(v.y);
      SquareZero(v.z);
      r
    else
      r
  }

  /** `length()`: the square root of `lensq()`. */
  function Length(v: Vector3, sqrt: real -> real): (r: real)
    requires IsSqrt(sqrt)
    ensures 0.0 <= r && r * r == LenSq(v)
    ensures r == 0.0 <==> v == Zero
  {
    var q := LenSq(v);
    assert 0.0 <= sqrt(q) && sqrt(q) * sqrt(q) == q;
    SqrtZero(sqrt, q);
    sqrt(q)
  }

  lemma LenSqScale(v: Vector3, k: real)
    ensures LenSq(Scale(v, k)) == k * k * LenSq(v)
  {
    assert v.x * k * (v.x * k) == k * k * (v.x * v.x);
    assert v.y * k * (v.y * k) == k * k * (v.y * v.y);
    assert v.z * k * (v.z * k) == k * k * (v.z * v.z);
  }

  lemma DotScale(a: Vector3, b: Vector3, k: real)
    ensures Dot(Scale(a, k), b) == k * Dot(a, b)
  {
    assert a.x * k * b.x == k * (a.x * b.x);
    assert a.y * k * b.y == k * (a.y * b.y);
    assert a.z * k * b.z == k * (a.z * b.z);
  }

  /** `unit(v)` is `v / v.length()`, which CHECKs a non-zero length. The result has
    * length 1 and points the same way as `v`. */
  function Unit(v: Vector3, sqrt: real -> real): (r: Vector3)
    requires IsSqrt(sqrt) && Length(v, sqrt) != 0.0
    ensures LenSq(r) == 1.0
    ensures 0.0 < Dot(r, v)
    ensures Cross(r, v) == Zero
    ensures Scale(r, Length(v, sqrt)) == v
  {
    var len := Length(v, sqrt);
    var k := 1.0 / len;
    assert len > 0.0 && k > 0.0 && k * len == 1.0;
    LenSqScale(v, k);
    assert k * k * LenSq(v) == (k * len) * (k * len);
    DotScale(v, v, k);
    assert k * Dot(v, v) > 0.0;
    Div(v, len)
  }

  /** `reflect(v, n)` is `v - (2 * dot(v, n)) * n`. */
  function Reflect(v: Vector3, n: Vector3): Vector3 {
    Sub(v, Scale(n, 2.0 * Dot(v, n)))
  }

  /** Against a unit normal, reflection flips the normal component. */
  lemma ReflectFlipsNormalComponent(v: Vector3, n: Vector3)
    requires Dot(n, n) == 1.0
    ensures Dot(Reflect(v, n), n) == -Dot(v, n)
  {
    var d := Dot(v, n);
    DotScale(n, n, 2.0 * d);
    assert Dot(Scale(n, 2.0 * d), n) == 2.0 * d;
  }

  /** Against a unit normal, reflecting twice gives the vector back. */
  lemma ReflectInvolution(v: Vector3, n: Vector3)
    requires Dot(n, n) == 1.0
    ensures Reflect(Reflect(v, n), n) == v
  {
    ReflectFlipsNormalComponent(v, n);
    var d := Dot(v, n);
    assert Dot(Reflect(v, n), n) == -d;
    assert Reflect(Reflect(v, n), n) == Sub(Reflect(v, n), Scale(n, -2.0 * d));
  }

  /** The discriminant `refract` computes from `unit(v)`. */
  function RefractDiscriminant(v: Vector3, normal: Vector3, nint: real, sqrt: real -> real): real
    requires IsSqrt(sqrt) && Length(v, sqrt) != 0.0
  {
    var dt := Dot(Unit(v, sqrt), normal);
    1.0 - nint * nint * (1.0 - dt * dt)
  }

  /** `refract(v, normal, nint)`: the zero vector under total internal reflection,
    * otherwise `nint * (uv - normal * dt) - normal * sqrt(discr)`. */
  function Refract(v: Vector3, normal: Vector3, nint: real, sqrt: real -> real): (r: Vector3)
    requires IsSqrt(sqrt) && Length(v, sqrt) != 0.0
    ensures RefractDiscriminant(v, normal, nint, sqrt) <= 0.0 ==> r == Zero
  {
    var uv := Unit(v, sqrt);
    var dt := Dot(uv, normal);
    var discr := RefractDiscriminant(v, normal, nint, sqrt);
    if discr <= 0.0 then Zero
    else Sub(Scale(Sub(uv, Scale(normal, dt)), nint), Scale(normal, sqrt(discr)))
  }

  lemma LenSqSub(a: Vector3, b: Vector3)
    ensures LenSq(Sub(a, b)) == LenSq(a) - 2.0 * Dot(a, b) + LenSq(b)
  {
  }

  lemma DotSub(a: Vector3, b: Vector3, c: Vector3)
    ensures Dot(Sub(a, b), c) == Dot(a, c) - Dot(b, c)
  {
  }

  /** `dot` is linear in its second argument. */
  lemma DotLinear(a: Vector3, b: Vector3, c: Vector3, k: real)
    ensures Dot(a, Add(b, c)) == Dot(a, b) + Dot(a, c)
    ensures Dot(a, Scale(b, k)) == Dot(a, b) * k
  {
    assert a.x * (b.x + c.x) == a.x * b.x + a.x * c.x;
    assert a.y * (b.y + c.y) == a.y * b.y + a.y * c.y;
    assert a.z * (b.z + c.z) == a.z * b.z + a.z * c.z;
    assert a.x * (b.x * k) == (a.x * b.x) * k;
    assert a.y * (b.y * k) == (a.y * b.y) * k;
    assert a.z * (b.z * k) == (a.z * b.z) * k;
  }

  /** Against a unit normal, a refracted direction is itself a unit vector, so the
    * zero vector is returned exactly when the discriminant is not positive. */
  lemma RefractIsUnit(v: Vector3, normal: Vector3, nint: real, sqrt: real -> real)
    requires IsSqrt(sqrt) && Length(v, sqrt) != 0.0 && Dot(normal, normal) == 1.0
    requires 0.0 < RefractDiscriminant(v, normal, nint, sqrt)
    ensures LenSq(Refract(v, normal, nint, sqrt)) == 1.0
  {
    var uv := Unit(v, sqrt);
    var dt := Dot(uv, normal);
    var discr := RefractDiscriminant(v, normal, nint, sqrt);
    var t := Sub(uv, Scale(normal, dt));
    assert 0.0 <= sqrt(discr) && sqrt(discr) * sqrt(discr) == discr;
    assert Refract(v, normal, nint, sqrt) == Sub(Scale(t, nint), Scale(normal, sqrt(discr)));
    TangentPart(uv, normal);
    OrthogonalSum(t, normal, nint, sqrt(discr), 1.0 - dt * dt, discr);
  }

  /** Removing the normal component of a unit vector leaves a vector orthogonal to
    * the normal, of squared length `1 - dt^2`. */
  lemma TangentPart(uv: Vector3, normal: Vector3)
    requires LenSq(uv) == 1.0 && Dot(normal, normal) == 1.0
    ensures Dot(Sub(uv, Scale(normal, Dot(uv, normal))), normal) == 0.0
    ensures LenSq(Sub(uv, Scale(normal, Dot(uv, normal)))) == 1.0 - Dot(uv, normal) * Dot(uv, normal)
  {
    var dt := Dot(uv, normal);
    var n := Scale(normal, dt);
    DotScale(normal, normal, dt);
    DotSub(uv, n, normal);
    LenSqSub(uv, n);
    DotSymmetric(uv, n);
    DotScale(normal, uv, dt);
    DotSymmetric(normal, uv);
    LenSqScale(normal, dt);
  }

  /** `k t - s n` for `t` orthogonal to the unit `n` has squared length
    * `k^2 |t|^2 + s^2`; it is a unit vector when `s^2` makes up the rest. */
  lemma OrthogonalSum(t: Vector3, n: Vector3, k: real, s: real, l: real, d: real)
    requires Dot(t, n) == 0.0 && Dot(n, n) == 1.0 && LenSq(t) == l && s * s == d
    requires d == 1.0 - k * k * l
    ensures LenSq(Sub(Scale(t, k), Scale(n, s))) == 1.0
  {
    assert k * k * LenSq(t) == k * k * l;
    var a, b := Scale(t, k), Scale(n, s);
    LenSqScale(t, k);
    LenSqScale(n, s);
    DotScale(t, b, k);
    DotSymmetric(t, b);
    DotScale(n, t, s);
    DotSymmetric(n, t);
    LenSqSub(a, b);
  }

  /** A `Vector3` variable: `normalize()` and the compound operators update its
    * fields in place. */
  class Vector3Var {
    var x: real
    var y: real
    var z: real

    function Value(): Vector3
      reads this
    {
      Vector3(x, y, z)
    }

    constructor (v: Vector3)
      ensures Value() == v
    {
      x, y, z := v.x, v.y, v.z;
    }

    /** `v[i] = a` through the non-const `operator[]`. */
    method SetComponent(i: int, a: real)
      requires 0 <= i <= 2
      modifies this
      ensures Value() == With(old(Value()), i, a)
    {
      if i == 0 { x := a; } else if i == 1 { y := a; } else { z := a; }
    }

    /** `operator+=`. */
    method AddAssign(b: Vector3)
      modifies this
      ensures Value() == Add(old(Value()), b)
    {
      var r := Add(Value(), b);
      x, y, z := r.x, r.y, r.z;
    }

    /** `operator-=`. */
    method SubAssign(b: Vector3)
      modifies this
      ensures Value() == Sub(old(Value()), b)
    {
      var r := Sub(Value(), b);
      x, y, z := r.x, r.y, r.z;
    }

    /** `operator*=`. */
    method MulAssign(t: real)
      modifies this
      ensures Value() == Scale(old(Value()), t)
    {
      var r := Scale(Value(), t);
      x, y, z := r.x, r.y, r.z;
    }

    /** `operator/=` CHECKs `t != 0`. */
    method DivAssign(t: real)
      requires t != 0.0
      modifies this
      ensures Value() == Div(old(Value()), t)
    {
      var r := Scale(Value(), 1.0 / t);
      x, y, z := r.x, r.y, r.z;
    }

    /** `normalize()` CHECKs a non-zero length, then multiplies each field by
      * `1 / len`; the new value is `unit` of the old one. */
    method Normalize(sqrt: real -> real)
      requires IsSqrt(sqrt) && Length(Value(), sqrt) != 0.0
      modifies this
      ensures Value() == Unit(old(Value()), sqrt)
      ensures LenSq(Value()) == 1.0
    {
      var len := Length(Value(), sqrt);
      var div := 1.0 / len;
      x := x * div;
      y := y * div;
      z := z * div;
    }
  }
}
