/** rcl/vec3.h: the vector type of the WebAssembly port. Its storage is the array
  * `e[3]`, and `x`, `y`, `z` are references to `e[0]`, `e[1]`, `e[2]`. The class
  * `Vec3` below holds that array and models the members that update it in
  * place. The free operators are functions on `Vector3` values, each proved equal
  * to the `CoreVector3` operator with the same arithmetic where one exists. */
module RclVec3 {
  import opened Numerics
  import V = CoreVector3

  type Vector3 = V.Vector3

  /** The value a `vec3` holds. */
  function ValueOf(e: seq<real>): (v: Vector3)
    requires |e| == 3
    ensures V.Get(v, 0) == e[0] && V.Get(v, 1) == e[1] && V.Get(v, 2) == e[2]
  {
    V.Vector3(e[0], e[1], e[2])
  }

  class Vec3 {
    /** `e[3]`; `x`, `y` and `z` are read through it. */
    const e: array<real>

    predicate Valid()
      reads this
    {
      e.Length == 3
    }

    function Value(): Vector3
      reads this, e
      requires Valid()
    {
      ValueOf(e[..])
    }

    /** `vec3(x, y, z)`: stores the three floats in `e` (and `vec3()` is
      * `vec3(0, 0, 0)`). */
    constructor (x: real, y: real, z: real)
      ensures Valid() && fresh(e) && Value() == V.Vector3(x, y, z)
    {
      e := new real[3] [x, y, z];
    }

    /** `operator[](i) const`: `e[i]`, so 0, 1, 2 read x, y, z. */
    function Get(i: int): (r: real)
      reads this, e
      requires Valid() && 0 <= i < 3
      ensures r == V.Get(Value(), i)
    {
      e[i]
    }

    /** Assigning through the non-const `operator[](i)`. */
    method Set(i: int, a: real)
      requires Valid() && 0 <= i < 3
      modifies e
      ensures Value() == V.With(old(Value()), i, a)
    {
      e[i] := a;
    }

    /** `operator+=(o)`: `e[k] += o.e[k]` for each k. `o` may be this vector. */
    method AddAssign(o: Vec3)
      requires Valid() && o.Valid()
      modifies e
      ensures Value() == Add(old(Value()), old(o.Value()))
    {
      e[0] := e[0] + o.e[0];
      e[1] := e[1] + o.e[1];
      e[2] := e[2] + o.e[2];
    }

    /** `operator-=(o)`. */
    method SubAssign(o: Vec3)
      requires Valid() && o.Valid()
      modifies e
      ensures Value() == Sub(old(Value()), old(o.Value()))
    {
      e[0] := e[0] - o.e[0];
      e[1] := e[1] - o.e[1];
      e[2] := e[2] - o.e[2];
    }

    /** `operator*=(o)`: the componentwise product. */
    method MulAssign(o: Vec3)
      requires Valid() && o.Valid()
      modifies e
      ensures Value() == Mul(old(Value()), old(o.Value()))
    {
      e[0] := e[0] * o.e[0];
      e[1] := e[1] * o.e[1];
      e[2] := e[2] * o.e[2];
    }

    /** `operator/=(o)`: the componentwise quotient. */
    method DivAssign(o: Vec3)
      requires Valid() && o.Valid() && NoZeroComponent(o.Value())
      modifies e
      ensures Value() == Quotient(old(Value()), old(o.Value()))
    {
      var a := o.Value();
      e[0] := e[0] / a.x;
      e[1] := e[1] / a.y;
      e[2] := e[2] / a.z;
    }

    /** `operator+=(t)`: `t` added to every entry. */
    method AddScalarAssign(t: real)
      requires Valid()
      modifies e
      ensures Value() == AddScalar(old(Value()), t)
    {
      e[0], e[1], e[2] := e[0] + t, e[1] + t, e[2] + t;
    }

    /** `operator-=(t)`. */
    method SubScalarAssign(t: real)
      requires Valid()
      modifies e
      ensures Value() == SubScalar(old(Value()), t)
    {
      e[0], e[1], e[2] := e[0] - t, e[1] - t, e[2] - t;
    }

    /** `operator*=(t)`. */
    method MulScalarAssign(t: real)
      requires Valid()
      modifies e
      ensures Value() == Scale(old(Value()), t)
    {
      e[0], e[1], e[2] := e[0] * t, e[1] * t, e[2] * t;
    }

    /** `operator/=(t)`. */
    method DivScalarAssign(t: real)
      requires Valid() && t != 0.0
      modifies e
      ensures Value() == DivScalar(old(Value()), t)
    {
      e[0], e[1], e[2] := e[0] / t, e[1] / t, e[2] / t;
    }

    /** `normalize()`: every entry times `k = 1 / length()`. Unlike
      * `Vector3::normalize` there is no check for a zero length. */
    method Normalize(sqrt: real -> real)
      requires Valid() && IsSqrt(sqrt) && Length(Value(), sqrt) != 0.0
      modifies e
      ensures Value() == Unit(old(Value()), sqrt)
      ensures SqLen(Value()) == 1.0
    {
      var k := 1.0 / Length(Value(), sqrt);
      e[0], e[1], e[2] := e[0] * k, e[1] * k, e[2] * k;
    }
  }

  predicate NoZeroComponent(v: Vector3) {
    v.x != 0.0 && v.y != 0.0 && v.z != 0.0
  }

  /** Unary `+` returns the vector itself; unary `-` negates every entry. */
  function Plus(v: Vector3): (r: Vector3)
    ensures r == v
  {
    v
  }

  /** Negating twice gives the vector back. */
  lemma NegInvolution(v: Vector3)
    ensures Neg(Neg(v)) == v
  {
  }

  /** The Hadamard product and `dot` do not depend on the order of the
    * arguments. */
  lemma MulDotSymmetric(a: Vector3, b: Vector3)
    ensures Mul(a, b) == Mul(b, a)
    ensures Dot(a, b) == Dot(b, a)
  {
  }

  function Neg(v: Vector3): (r: Vector3)
    ensures r == V.Neg(v)
  {
    V.Vector3(-v.x, -v.y, -v.z)
  }

  function Add(a: Vector3, b: Vector3): (r: Vector3)
    ensures r == V.Add(a, b)
  {
    V.Vector3(a.x + b.x, a.y + b.y, a.z + b.z)
  }

  function Sub(a: Vector3, b: Vector3): (r: Vector3)
    ensures r == V.Sub(a, b)
    ensures Add(r, b) == a
  {
    V.Vector3(a.x - b.x, a.y - b.y, a.z - b.z)
  }

  /** `vec3 * vec3`: the Hadamard product. */
  function Mul(a: Vector3, b: Vector3): (r: Vector3)
    ensures b == V.Vector3(1.0, 1.0, 1.0) ==> r == a
    ensures b == V.Vector3(b.x, b.x, b.x) ==> r == V.Scale(a, b.x)
  {
    V.Vector3(a.x * b.x, a.y * b.y, a.z * b.z)
  }

  /** `vec3 / vec3`: the componentwise quotient, which undoes `Mul`. */
  function Quotient(a: Vector3, b: Vector3): (r: Vector3)
    requires NoZeroComponent(b)
    ensures Mul(r, b) == a
  {
    V.Vector3(a.x / b.x, a.y / b.y, a.z / b.z)
  }

  /** `vec3 + float` and `vec3 - float`: the scalar on every entry. */
  function AddScalar(a: Vector3, t: real): (r: Vector3)
    ensures r == V.Add(a, V.Vector3(t, t, t))
    ensures SubScalar(r, t) == a
  {
    V.Vector3(a.x + t, a.y + t, a.z + t)
  }

  function SubScalar(a: Vector3, t: real): (r: Vector3)
    ensures r == V.Sub(a, V.Vector3(t, t, t))
  {
    V.Vector3(a.x - t, a.y - t, a.z - t)
  }

  function Scale(a: Vector3, t: real): (r: Vector3)
    ensures r == V.Scale(a, t)
  {
    V.Vector3(a.x * t, a.y * t, a.z * t)
  }

  /** `vec3 / float`: each entry divided, with no check on `t`. */
  function DivScalar(a: Vector3, t: real): (r: Vector3)
    requires t != 0.0
    ensures Scale(r, t) == a
  {
    V.Vector3(a.x / t, a.y / t, a.z / t)
  }

  function Dot(a: Vector3, b: Vector3): (r: real)
    ensures r == V.Dot(a, b)
  {
    a.x * b.x + a.y * b.y + a.z * b.z
  }

  function Cross(a: Vector3, b: Vector3): (r: Vector3)
    ensures r == V.Cross(a, b)
    ensures Dot(r, a) == 0.0 && Dot(r, b) == 0.0
  {
    V.CrossOrthogonal(a, b);
    V.Vector3(a.y * b.z - a.z * b.y, a.z * b.x - a.x * b.z, a.x * b.y - a.y * b.x)
  }

  function SqLen(v: Vector3): (r: real)
    ensures r == V.LenSq(v)
  {
    v.x * v.x + v.y * v.y + v.z * v.z
  }

  function Length(v: Vector3, sqrt: real -> real): (r: real)
    requires IsSqrt(sqrt)
    ensures r == V.Length(v, sqrt)
  {
    var q := v.x * v.x + v.y * v.y + v.z * v.z;
    assert q == V.LenSq(v);
    sqrt(q)
  }

  /** `unit(v)`: `v / v.length()`, a vector of length 1 when `v` is not zero. */
  function Unit(v: Vector3, sqrt: real -> real): (r: Vector3)
    requires IsSqrt(sqrt) && Length(v, sqrt) != 0.0
    ensures r == V.Unit(v, sqrt)
    ensures SqLen(r) == 1.0
  {
    DivScalar(v, Length(v, sqrt))
  }
}
