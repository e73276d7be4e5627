/** src/core/Vector2.h: the two-component vector `Vector2<float>`. The operators
  * are pure functions on the `Vector2` value. `Vector2Var` models a variable whose
  * fields `Normalize()` and the compound operators update in place. */
module CoreVector2 {
  import opened Numerics

  datatype Vector2 = Vector2(x: real, y: real)

  const Zero: Vector2 := Vector2(0.0, 0.0)

  /** `operator[] const`: DCHECKs 0 <= i <= 1. */
  function Get(v: Vector2, i: int): real
    requires 0 <= i <= 1
  {
    if i == 0 then v.x else v.y
  }

  /** Assigning through the non-const `operator[]`. */
  function With(v: Vector2, i: int, a: real): (r: Vector2)
    requires 0 <= i <= 1
    ensures Get(r, i) == a && Get(r, 1 - i) == Get(v, 1 - i)
  {
    if i == 0 then v.(x := a) else v.(y := a)
  }

  function Equal(a: Vector2, b: Vector2): (r: bool)
    ensures r <==> a == b
  {
    a.x == b.x && a.y == b.y
  }

  function NotEqual(a: Vector2, b: Vector2): (r: bool)
    ensures r <==> a != b
  {
    !Equal(a, b)
  }

  function Add(a: Vector2, b: Vector2): Vector2 {
    Vector2(a.x + b.x, a.y + b.y)
  }

  function Sub(a: Vector2, b: Vector2): Vector2 {
    Vector2(a.x - b.x, a.y - b.y)
  }

  /** Unary `operator-`: the additive inverse. */
  function Neg(v: Vector2): (r: Vector2)
    ensures Add(v, r) == Zero
  {
    Vector2(-v.x, -v.y)
  }

  lemma NegInvolution(v: Vector2)
    ensures Neg(Neg(v)) == v
  {
  }

  lemma AddSubCancel(a: Vector2, b: Vector2)
    ensures Sub(Add(a, b), b) == a
  {
  }

  /** `a * t` and `t * a`. */
  function Scale(a: Vector2, t: real): Vector2 {
    Vector2(a.x * t, a.y * t)
  }

  /** `a / t` CHECKs `t != 0` and multiplies by `1 / t`. */
  function Div(a: Vector2, t: real): (r: Vector2)
    requires t != 0.0
    ensures Scale(r, t) == a
  {
    var k := 1.0 / t;
    assert k * t == 1.0;
    assert a.x * k * t == a.x * (k * t);
    assert a.y * k * t == a.y * (k * t);
    Scale(a, k)
  }

  /** `t / a` CHECKs `t != 0` and returns `a * (1 / t)`, the same vector as `a / t`. */
  function ScalarDiv(t: real, a: Vector2): (r: Vector2)
    requires t != 0.0
    ensures r == Div(a, t)
  {
    Scale(a, 1.0 / t)
  }

  function Min(a: Vector2, b: Vector2): (r: Vector2)
    ensures r.x <= a.x && r.x <= b.x && (r.x == a.x || r.x == b.x)
    ensures r.y <= a.y && r.y <= b.y && (r.y == a.y || r.y == b.y)
  {
    Vector2(Numerics.Min(a.x, b.x), Numerics.Min(a.y, b.y))
  }

  function Max(a: Vector2, b: Vector2): (r: Vector2)
    ensures a.x <= r.x && b.x <= r.x && (r.x == a.x || r.x == b.x)
    ensures a.y <= r.y && b.y <= r.y && (r.y == a.y || r.y == b.y)
  {
    Vector2(Numerics.Max(a.x, b.x), Numerics.Max(a.y, b.y))
  }

  function Dot(a: Vector2, b: Vector2): real {
    a.x * b.x + a.y * b.y
  }

  lemma DotSymmetric(a: Vector2, b: Vector2)
    ensures Dot(a, b) == Dot(b, a)
  {
  }

  /** `LengthSq()`: zero only for the zero vector. */
  function LengthSq(v: Vector2): (r: real)
    ensures 0.0 <= r
    ensures r == 0.0 <==> v == Zero
  {
    var r := v.x * v.x + v.y * v.y;
    assert v.x * v.x >= 0.0 && v.y * v.y >= 0.0;
    if r == 0.0 then
      SquareZero(v.x);
      SquareZero(v.y);
      r
    else
      r
  }

  /** `Length()`: the square root of `LengthSq()`. */
  function Length(v: Vector2, sqrt: real -> real): (r: real)
    requires IsSqrt(sqrt)
    ensures 0.0 <= r && r * r == LengthSq(v)
    ensures r == 0.0 <==> v == Zero
  {
    var q := LengthSq(v);
    assert 0.0 <= sqrt(q) && sqrt(q) * sqrt(q) == q;
    SqrtZero(sqrt, q);
    sqrt(q)
  }

  /** `Distance(a, b)` is `(b - a).Length()`: non-negative, and zero only between
    * equal points. */
  function Distance(a: Vector2, b: Vector2, sqrt: real -> real): (r: real)
    requires IsSqrt(sqrt)
    ensures 0.0 <= r
    ensures r == 0.0 <==> a == b
  {
    var d := Sub(b, a);
    assert d == Zero <==> a == b;
    var r := Length(d, sqrt);
    assert 0.0 <= r && (r == 0.0 <==> d == Zero);
    r
  }

  lemma DistanceSymmetric(a: Vector2, b: Vector2, sqrt: real -> real)
    requires IsSqrt(sqrt)
    ensures Distance(a, b, sqrt) == Distance(b, a, sqrt)
  {
    assert (b.x - a.x) * (b.x - a.x) == (a.x - b.x) * (a.x - b.x);
    assert (b.y - a.y) * (b.y - a.y) == (a.y - b.y) * (a.y - b.y);
    assert LengthSq(Sub(b, a)) == LengthSq(Sub(a, b));
  }

  /** The free `Normalize(v)` is `v / v.Length()`: it CHECKs a non-zero length and
    * returns a vector of length 1 that, scaled back by that length, is `v`. */
  function Normalized(v: Vector2, sqrt: real -> real): (r: Vector2)
    requires IsSqrt(sqrt) && Length(v, sqrt) != 0.0
    ensures LengthSq(r) == 1.0
    ensures Scale(r, Length(v, sqrt)) == v
  {
    var len := Length(v, sqrt);
    var k := 1.0 / len;
    assert k * len == 1.0;
    assert LengthSq(Scale(v, k)) == k * k * LengthSq(v) by {
      assert v.x * k * (v.x * k) == k * k * (v.x * v.x);
      assert v.y * k * (v.y * k) == k * k * (v.y * v.y);
    }
    assert k * k * LengthSq(v) == (k * len) * (k * len);
    Div(v, len)
  }

  /** A `Vector2<float>` variable whose fields are updated in place. */
  class Vector2Var {
    var x: real
    var y: real

    function Value(): Vector2
      reads this
    {
      Vector2(x, y)
    }

    constructor (v: Vector2)
      ensures Value() == v
    {
      x, y := v.x, v.y;
    }

    /** `operator+=`. */
    method AddAssign(b: Vector2)
      modifies this
      ensures Value() == Add(old(Value()), b)
    {
      x, y := x + b.x, y + b.y;
    }

    /** `operator-=`. */
    method SubAssign(b: Vector2)
      modifies this
      ensures Value() == Sub(old(Value()), b)
    {
      x, y := x - b.x, y - b.y;
    }

    /** `operator*=`. */
    method MulAssign(t: real)
      modifies this
      ensures Value() == Scale(old(Value()), t)
    {
      x, y := x * t, y * t;
    }

    /** `operator/=` CHECKs `t != 0`. */
    method DivAssign(t: real)
      requires t != 0.0
      modifies this
      ensures Value() == Div(old(Value()), t)
    {
      x, y := x * (1.0 / t), y * (1.0 / t);
    }

    /** `Normalize()` CHECKs a non-zero length and scales both fields by `1 / len`. */
    method Normalize(sqrt: real -> real)
      requires IsSqrt(sqrt) && Length(Value(), sqrt) != 0.0
      modifies this
      ensures Value() == Normalized(old(Value()), sqrt)
      ensures LengthSq(Value()) == 1.0
      ensures Scale(Value(), Length(old(Value()), sqrt)) == old(Value())
    {
      var len := Length(Value(), sqrt);
      var div := 1.0 / len;
      x := x * div;
      y := y * div;
    }
  }
}
