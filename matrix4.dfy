/** src/core/Matrix4.h and src/core/Matrix4.cc: a 4x4 float matrix stored as
  * `d[16]`. Entry `4 * j + k` is row `k` of column `j`: the first three columns
  * are the images of the axes and column 3 (entries 12..14) is the translation,
  * while entries 3, 7, 11 and 15 form the bottom (`w`) row. The entries are
  * specified as a `seq<real>` of length 16; `Matrix4` is the object whose methods
  * edit `d` in place. `sin` and `cos` are passed in as functions. */
module CoreMatrix4 {
  import opened Numerics
  import opened Wrappers
  import opened CoreVector3
  import opened CoreAABB
  import opened CoreRay

  /** `Matrix4()`: the identity. */
  const Identity: seq<real> :=
    [1.0, 0.0, 0.0, 0.0, 0.0, 1.0, 0.0, 0.0, 0.0, 0.0, 1.0, 0.0, 0.0, 0.0, 0.0, 1.0]

  /** Column `j`, without its bottom-row entry. */
  function Column(m: seq<real>, j: int): Vector3
    requires |m| == 16 && 0 <= j < 4
  {
    Vector3(m[4 * j], m[4 * j + 1], m[4 * j + 2])
  }

  /** The bottom row is (0, 0, 0, 1). Every edit of `Matrix4` keeps this. */
  predicate Affine(m: seq<real>)
    requires |m| == 16
  {
    m[3] == 0.0 && m[7] == 0.0 && m[11] == 0.0 && m[15] == 1.0
  }

  /** Every entry multiplied by `k`; a homogeneous matrix and its multiples stand for
    * the same map. */
  function ScaleAll(m: seq<real>, k: real): (r: seq<real>)
    requires |m| == 16
    ensures |r| == 16 && forall i :: 0 <= i < 16 ==> r[i] == m[i] * k
  {
    seq(16, i requires 0 <= i < 16 => m[i] * k)
  }

  // ---------------------------------------------------------------- transforms

  /** Row `k` of the upper 3x4 block without its translation entry. */
  function Row(m: seq<real>, k: int): Vector3
    requires |m| == 16 && 0 <= k < 4
  {
    Vector3(m[k], m[4 + k], m[8 + k])
  }

  /** Row `k` applied to the point `v` (homogeneous coordinate 1). */
  function RowDot(m: seq<real>, k: int, v: Vector3): real
    requires |m| == 16 && 0 <= k < 4
  {
    Dot(Row(m, k), v) + m[12 + k]
  }

  /** `TransformNormal(mat, v)`: the linear part only; column 3 and the bottom row
    * are not read. */
  function TransformNormal(m: seq<real>, v: Vector3): Vector3
    requires |m| == 16
  {
    Vector3(Dot(Row(m, 0), v), Dot(Row(m, 1), v), Dot(Row(m, 2), v))
  }

  /** `Transform(mat, v)` as written: `w` is `(...) || 1.0`, a `bool` that is always
    * true and converts back to 1.0, so the division is by one and a point is
    * mapped to its linear image plus the translation column, whatever the
    * bottom row holds. */
  function Transform(m: seq<real>, v: Vector3): (r: Vector3)
    requires |m| == 16
    ensures r == Add(TransformNormal(m, v), Column(m, 3))
  {
    var wRaw := RowDot(m, 3, v);
    var w := if wRaw != 0.0 || 1.0 != 0.0 then 1.0 else 0.0;
    Vector3(RowDot(m, 0, v) / w, RowDot(m, 1, v) / w, RowDot(m, 2, v) / w)
  }

  /** The `w` that `Transform` evidently means: the JavaScript idiom `w || 1`,
    * i.e. the homogeneous coordinate unless it is zero. */
  function HomogeneousW(m: seq<real>, v: Vector3): (w: real)
    requires |m| == 16
    ensures w != 0.0
    ensures Affine(m) ==> w == 1.0
  {
    var wRaw := RowDot(m, 3, v);
    if wRaw != 0.0 then wRaw else 1.0
  }

  /** `Transform(mat, v)` as evidently intended: divide by the homogeneous `w`. It
    * agrees with the code on affine matrices, and a matrix and any non-zero multiple
    * of it map points alike. */
  function TransformPoint(m: seq<real>, v: Vector3): (r: Vector3)
    requires |m| == 16
    ensures Affine(m) ==> r == Transform(m, v)
    ensures Scale(r, HomogeneousW(m, v)) == Transform(m, v)
  {
    var w := HomogeneousW(m, v);
    Vector3(RowDot(m, 0, v) / w, RowDot(m, 1, v) / w, RowDot(m, 2, v) / w)
  }

  /** The identity with every entry doubled: the same map in homogeneous terms. */
  const DoubledIdentity: seq<real> :=
    [2.0, 0.0, 0.0, 0.0, 0.0, 2.0, 0.0, 0.0, 0.0, 0.0, 2.0, 0.0, 0.0, 0.0, 0.0, 2.0]

  lemma DoubledIdentityIsScaled()
    ensures ScaleAll(Identity, 2.0) == DoubledIdentity
  {
  }

  /** The defect: with the whole matrix doubled the code maps every point `v` to
    * `2v`, while the homogeneous reading gives `v` back; they differ at every
    * point but the origin, (1, 1, 1) for one. */
  lemma TransformIgnoresW(v: Vector3)
    ensures Transform(DoubledIdentity, v) == Scale(v, 2.0)
    ensures TransformPoint(DoubledIdentity, v) == v
    ensures v != Zero ==> Transform(DoubledIdentity, v) != TransformPoint(DoubledIdentity, v)
  {
    var n := DoubledIdentity;
    assert TransformNormal(n, v) == Scale(v, 2.0);
    assert Column(n, 3) == Zero;
    TransformPointDoubled(v);
  }

  lemma TransformPointDoubled(v: Vector3)
    ensures TransformPoint(DoubledIdentity, v) == v
  {
    var n := DoubledIdentity;
    assert RowDot(n, 0, v) == v.x * 2.0 && RowDot(n, 1, v) == v.y * 2.0 && RowDot(n, 2, v) == v.z * 2.0;
    assert HomogeneousW(n, v) == 2.0;
  }

  /** The intended transform is invariant under scaling the matrix. */
  lemma TransformPointScaleInvariant(m: seq<real>, k: real, v: Vector3)
    requires |m| == 16 && k != 0.0
    requires RowDot(m, 3, v) != 0.0
    ensures TransformPoint(ScaleAll(m, k), v) == TransformPoint(m, v)
  {
    var n := ScaleAll(m, k);
    HomogeneousWScaled(m, k, v);
    TransformPointDivides(n, v);
    TransformPointDivides(m, v);
    ScaledQuotient(m, k, v, 0);
    ScaledQuotient(m, k, v, 1);
    ScaledQuotient(m, k, v, 2);
  }

  /** One coordinate of the scale invariance: `(a k) / (w k) == a / w`. */
  lemma ScaledQuotient(m: seq<real>, k: real, v: Vector3, row: int)
    requires |m| == 16 && k != 0.0 && 0 <= row < 3
    requires RowDot(m, 3, v) != 0.0
    ensures RowDot(ScaleAll(m, k), row, v) / (RowDot(m, 3, v) * k) == RowDot(m, row, v) / RowDot(m, 3, v)
  {
    RowDotScaled(m, k, row, v);
    DivCancel(RowDot(ScaleAll(m, k), row, v), RowDot(m, 3, v) * k, RowDot(m, row, v), RowDot(m, 3, v), k);
  }

  lemma HomogeneousWScaled(m: seq<real>, k: real, v: Vector3)
    requires |m| == 16 && k != 0.0
    requires RowDot(m, 3, v) != 0.0
    ensures HomogeneousW(m, v) == RowDot(m, 3, v)
    ensures HomogeneousW(ScaleAll(m, k), v) == RowDot(m, 3, v) * k
  {
    RowDotScaled(m, k, 3, v);
    assert RowDot(m, 3, v) * k != 0.0;
  }

  lemma TransformPointDivides(m: seq<real>, v: Vector3)
    requires |m| == 16
    ensures TransformPoint(m, v).x == RowDot(m, 0, v) / HomogeneousW(m, v)
    ensures TransformPoint(m, v).y == RowDot(m, 1, v) / HomogeneousW(m, v)
    ensures TransformPoint(m, v).z == RowDot(m, 2, v) / HomogeneousW(m, v)
  {
  }

  lemma RowDotScaled(m: seq<real>, k: real, row: int, v: Vector3)
    requires |m| == 16 && 0 <= row < 4
    ensures RowDot(ScaleAll(m, k), row, v) == RowDot(m, row, v) * k
  {
    var n := ScaleAll(m, k);
    assert Row(n, row) == Scale(Row(m, row), k);
    DotScale(Row(m, row), v, k);
  }

  /** `num / den == p / w` when `num` and `den` are `p` and `w` times the same
    * non-zero `k`. */
  lemma DivCancel(num: real, den: real, p: real, w: real, k: real)
    requires k != 0.0 && w != 0.0
    requires num == p * k && den == w * k
    ensures num / den == p / w
  {
    var r := p / w;
    assert r * w == p;
    assert den * r == num;
  }

  lemma TransformIdentity(v: Vector3)
    ensures Transform(Identity, v) == v
    ensures TransformNormal(Identity, v) == v
    ensures TransformPoint(Identity, v) == v
  {
  }

  /** The bottom row never reaches `Transform`'s result. */
  lemma TransformIgnoresBottomRow(m: seq<real>, n: seq<real>, v: Vector3)
    requires |m| == 16 && |n| == 16
    requires forall i :: 0 <= i < 16 && i % 4 != 3 ==> m[i] == n[i]
    ensures Transform(m, v) == Transform(n, v)
  {
    assert m[0] == n[0] && m[1] == n[1] && m[2] == n[2] && m[4] == n[4] && m[5] == n[5];
    assert m[6] == n[6] && m[8] == n[8] && m[9] == n[9] && m[10] == n[10];
    assert m[12] == n[12] && m[13] == n[13] && m[14] == n[14];
    assert Row(m, 0) == Row(n, 0) && Row(m, 1) == Row(n, 1) && Row(m, 2) == Row(n, 2);
  }

  /** `TransformNormal` is linear, and differs from `Transform` exactly by the
    * translation column. */
  lemma TransformNormalLinear(m: seq<real>, a: Vector3, b: Vector3, k: real)
    requires |m| == 16
    ensures TransformNormal(m, Add(a, b)) == Add(TransformNormal(m, a), TransformNormal(m, b))
    ensures TransformNormal(m, Scale(a, k)) == Scale(TransformNormal(m, a), k)
    ensures TransformNormal(m, Zero) == Zero
    ensures Transform(m, Zero) == Column(m, 3)
  {
    TransformNormalAdds(m, a, b);
    TransformNormalScales(m, a, k);
  }

  lemma TransformNormalAdds(m: seq<real>, a: Vector3, b: Vector3)
    requires |m| == 16
    ensures TransformNormal(m, Add(a, b)) == Add(TransformNormal(m, a), TransformNormal(m, b))
  {
    DotLinear(Row(m, 0), a, b, 0.0);
    DotLinear(Row(m, 1), a, b, 0.0);
    DotLinear(Row(m, 2), a, b, 0.0);
  }

  lemma TransformNormalScales(m: seq<real>, a: Vector3, k: real)
    requires |m| == 16
    ensures TransformNormal(m, Scale(a, k)) == Scale(TransformNormal(m, a), k)
  {
    DotLinear(Row(m, 0), a, a, k);
    DotLinear(Row(m, 1), a, a, k);
    DotLinear(Row(m, 2), a, a, k);
  }

  /** `Transform(mat, Ray)`: origin and direction both go through the point
    * transform as written, `Transform`, with `w` forced to 1. */
  function TransformRay(m: seq<real>, ray: Ray): (r: Ray)
    requires |m| == 16
    ensures r.minT == ray.minT && r.maxT == ray.maxT
    ensures r.origin == Add(TransformNormal(m, ray.origin), Column(m, 3))
    ensures r.direction == Add(TransformNormal(m, ray.direction), Column(m, 3))
  {
    var origin := Transform(m, ray.origin);
    var direction := Transform(m, ray.direction);
    Ray(origin, direction, ray.minT, ray.maxT)
  }

  /** On an affine matrix the ray goes through the intended homogeneous
    * transform; on `DoubledIdentity` it does not. */
  lemma TransformRayAffine(m: seq<real>, ray: Ray)
    requires |m| == 16
    ensures Affine(m) ==> TransformRay(m, ray).origin == TransformPoint(m, ray.origin)
    ensures Affine(m) ==> TransformRay(m, ray).direction == TransformPoint(m, ray.direction)
    ensures ray.origin != Zero ==>
      TransformRay(DoubledIdentity, ray).origin != TransformPoint(DoubledIdentity, ray.origin)
  {
    TransformIgnoresW(ray.origin);
  }

  /** Because the direction goes through the point transform, a pure translation
    * moves the direction as well as the origin. */
  lemma TransformRayTranslatesDirection(t: Vector3, ray: Ray)
    ensures TransformRay(Translated(Identity, t.x, t.y, t.z), ray).direction == Add(ray.direction, t)
    ensures TransformRay(Translated(Identity, t.x, t.y, t.z), ray).origin == Add(ray.origin, t)
  {
    var n := Translated(Identity, t.x, t.y, t.z);
    EditsKeepAffine(Identity, t.x, t.y, t.z, t, 0.0, 1.0);
    TranslatedTransform(Identity, t, ray.direction);
    TranslatedTransform(Identity, t, ray.origin);
    TransformIdentity(Add(ray.direction, t));
    TransformIdentity(Add(ray.origin, t));
  }

  /** The eight corners of `b` after `Transform`, in `Corner` order. */
  function TransformedCorners(m: seq<real>, b: AABB): (ps: seq<Vector3>)
    requires |m| == 16
    ensures |ps| == 8
  {
    seq(8, i requires 0 <= i < 8 => Transform(m, Corner(b, i)))
  }

  /** `Transform(mat, AABB)`: starting from the empty box, the union with each of
    * the eight transformed corners. The result is a sorted box holding every
    * transformed corner and, when those are finite, the smallest such box. */
  method TransformBox(m: seq<real>, b: AABB) returns (ret: AABB)
    requires |m| == 16
    ensures Sorted(ret)
    ensures HoldsAll(ret, TransformedCorners(m, b))
    ensures (forall i :: 0 <= i < 8 ==> InRange(TransformedCorners(m, b)[i])) ==>
      Tightest(ret, TransformedCorners(m, b))
  {
    ghost var ps := TransformedCorners(m, b);
    ghost var finite := forall j :: 0 <= j < 8 ==> InRange(ps[j]);
    ret := Empty();
    for i := 0 to 8
      invariant i == 0 ==> ret == Empty()
      invariant 0 < i ==> Sorted(ret)
      invariant HoldsAll(ret, ps[..i])
      invariant finite && 0 < i ==> Tightest(ret, ps[..i])
    {
      var p := Transform(m, Corner(b, i));
      assert p == ps[i];
      assert finite ==> InRange(p);
      UnionPointStep(ret, ps[..i], p);
      assert ps[..i + 1] == ps[..i] + [p];
      ret := UnionPoint(ret, p);
    }
    assert ps[..8] == ps;
  }

  // ------------------------------------------------------------- entry edits

  /** `Scale(x, y, z)`: column 0 times `x`, column 1 times `y`, column 2 times `z`,
    * bottom-row entries included; column 3 is untouched. */
  function Scaled(m: seq<real>, x: real, y: real, z: real): (r: seq<real>)
    requires |m| == 16
    ensures |r| == 16 && r[12..] == m[12..]
  {
    seq(16, i requires 0 <= i < 16 =>
      if i < 4 then m[i] * x else if i < 8 then m[i] * y else if i < 12 then m[i] * z else m[i])
  }

  /** `Translate(x, y, z)`: entry `12 + k` becomes
    * `d[k] * x + d[4 + k] * y + d[8 + k] * z + d[12 + k]`; nothing else changes. */
  function Translated(m: seq<real>, x: real, y: real, z: real): (r: seq<real>)
    requires |m| == 16
    ensures |r| == 16 && r[..12] == m[..12]
  {
    seq(16, i requires 0 <= i < 16 =>
      if i < 12 then m[i] else m[i - 12] * x + m[i - 8] * y + m[i - 4] * z + m[i])
  }

  /** `RotateX`: columns 1 and 2 (entries 4..11) are mixed by `s` and `c`. */
  function RotatedX(m: seq<real>, s: real, c: real): (r: seq<real>)
    requires |m| == 16
    ensures |r| == 16 && r[..4] == m[..4] && r[12..] == m[12..]
  {
    seq(16, i requires 0 <= i < 16 =>
      if 4 <= i < 8 then PlaneEntry(m[i], m[i + 4], s, c)
      else if 8 <= i < 12 then PlaneEntry(m[i], -m[i - 4], s, c)
      else m[i])
  }

  /** An entry after a plane rotation: its own value times the cosine plus the
    * partner entry (negated where the source subtracts) times the sine. */
  function PlaneEntry(own: real, partner: real, s: real, c: real): real {
    own * c + partner * s
  }

  /** `RotateY`: columns 0 and 2 (entries 0..3 and 8..11) are mixed. */
  function RotatedY(m: seq<real>, s: real, c: real): (r: seq<real>)
    requires |m| == 16
    ensures |r| == 16 && r[4..8] == m[4..8] && r[12..] == m[12..]
  {
    seq(16, i requires 0 <= i < 16 =>
      if i < 4 then PlaneEntry(m[i], -m[i + 8], s, c)
      else if 8 <= i < 12 then PlaneEntry(m[i], m[i - 8], s, c)
      else m[i])
  }

  /** `RotateZ`: columns 0 and 1 (entries 0..7) are mixed. */
  function RotatedZ(m: seq<real>, s: real, c: real): (r: seq<real>)
    requires |m| == 16
    ensures |r| == 16 && r[8..] == m[8..]
  {
    seq(16, i requires 0 <= i < 16 =>
      if i < 4 then PlaneEntry(m[i], m[i + 4], s, c)
      else if i < 8 then PlaneEntry(m[i], -m[i - 4], s, c)
      else m[i])
  }

  /** A 3x3 factor, entry `bij` being the weight of old column `j` in new column
    * `i`, named as in `Rotate`. */
  datatype Factor = Factor(b00: real, b01: real, b02: real, b10: real, b11: real, b12: real,
                           b20: real, b21: real, b22: real)

  /** The factor of `Rotate(axis, rad)` for the unit axis `v`, with `t = 1 - c`
    * written out: `b_ii = v_i v_i t + c`, and off the diagonal
    * `v_j v_i t` plus or minus the sine times the third coordinate. */
  function AxisFactor(v: Vector3, s: real, c: real): (b: Factor)
  {
    Factor(AxisDiag(v.x, c), AxisPlus(v.y, v.x, v.z, s, c), AxisMinus(v.z, v.x, v.y, s, c),
           AxisMinus(v.x, v.y, v.z, s, c), AxisDiag(v.y, c), AxisPlus(v.z, v.y, v.x, s, c),
           AxisPlus(v.x, v.z, v.y, s, c), AxisMinus(v.y, v.z, v.x, s, c), AxisDiag(v.z, c))
  }

  function AxisDiag(a: real, c: real): real {
    a * a * (1.0 - c) + c
  }

  function AxisPlus(a: real, b: real, d: real, s: real, c: real): real {
    a * b * (1.0 - c) + d * s
  }

  function AxisMinus(a: real, b: real, d: real, s: real, c: real): real {
    a * b * (1.0 - c) - d * s
  }

  /** The right product of `m` with the factor `b`: entries 0..11 become
    * `a_0k * b_j0 + a_1k * b_j1 + a_2k * b_j2` for column `j`, row `k`, and
    * entries 12..15 stay. This is the
    * shape of every edit except `Translate`. */
  function Multiplied(m: seq<real>, b: Factor): (r: seq<real>)
    requires |m| == 16
    ensures |r| == 16 && r[12..] == m[12..]
  {
    seq(16, i requires 0 <= i < 16 => if i < 12 then Coord(FactorRow(Row(m, i % 4), b), i / 4) else m[i])
  }

  /** Coordinate `j` of `v`: x, y, z for 0, 1, 2. */
  function Coord(v: Vector3, j: int): real {
    if j == 0 then v.x else if j == 1 then v.y else v.z
  }

  /** Row `k` of a right product by `b`, given the row `a` of the left factor:
    * coordinate `j` is `a_0k * b_j0 + a_1k * b_j1 + a_2k * b_j2`. */
  function FactorRow(a: Vector3, b: Factor): Vector3 {
    Vector3(a.x * b.b00 + a.y * b.b01 + a.z * b.b02,
            a.x * b.b10 + a.y * b.b11 + a.z * b.b12,
            a.x * b.b20 + a.y * b.b21 + a.z * b.b22)
  }

  /** `Rotate(axis, rad)` once the axis is normalised. */
  function RotatedAbout(m: seq<real>, v: Vector3, s: real, c: real): (r: seq<real>)
    requires |m| == 16
    ensures |r| == 16 && r[12..] == m[12..]
  {
    Multiplied(m, AxisFactor(v, s, c))
  }

  /** The point map of the 3x3 factor `b`. */
  function ApplyFactor(b: Factor, v: Vector3): Vector3
  {
    Vector3(b.b00 * v.x + b.b10 * v.y + b.b20 * v.z,
            b.b01 * v.x + b.b11 * v.y + b.b21 * v.z,
            b.b02 * v.x + b.b12 * v.y + b.b22 * v.z)
  }

  /** A diagonal factor. */
  function Diagonal3(x: real, y: real, z: real): (b: Factor)
  {
    Factor(x, 0.0, 0.0, 0.0, y, 0.0, 0.0, 0.0, z)
  }

  /** The plane rotations of `RotateX`, `RotateY` and `RotateZ` as 3x3 factors. */
  function FactorX(s: real, c: real): (b: Factor)
  {
    Factor(1.0, 0.0, 0.0, 0.0, c, s, 0.0, -s, c)
  }

  function FactorY(s: real, c: real): (b: Factor)
  {
    Factor(c, 0.0, -s, 0.0, 1.0, 0.0, s, 0.0, c)
  }

  function FactorZ(s: real, c: real): (b: Factor)
  {
    Factor(c, s, 0.0, -s, c, 0.0, 0.0, 0.0, 1.0)
  }

  /** Rodrigues' rotation of `v` about the unit axis `u`:
    * `c v + (1 - c)(u . v) u + s (u x v)`. */
  function Rodrigues(u: Vector3, s: real, c: real, v: Vector3): Vector3 {
    var dot, cross := Dot(u, v), Cross(u, v);
    Vector3(RodriguesPart(v.x, u.x, cross.x, dot, s, c), RodriguesPart(v.y, u.y, cross.y, dot, s, c),
            RodriguesPart(v.z, u.z, cross.z, dot, s, c))
  }

  /** One coordinate of Rodrigues' formula, from the same coordinate of `v`, `u`
    * and `u x v`. */
  function RodriguesPart(v: real, u: real, cross: real, dot: real, s: real, c: real): real {
    v * c + u * ((1.0 - c) * dot) + cross * s
  }

  // --------------------------------------------------------- what edits mean

  /** One coordinate of a right product, regrouped by column of `m`. */
  lemma Regroup(a: Vector3, b: Factor, v: Vector3)
    ensures Dot(FactorRow(a, b), v) == Dot(a, ApplyFactor(b, v))
  {
    SumTimes3(a.x * b.b00, a.y * b.b01, a.z * b.b02, v.x);
    SumTimes3(a.x * b.b10, a.y * b.b11, a.z * b.b12, v.y);
    SumTimes3(a.x * b.b20, a.y * b.b21, a.z * b.b22, v.z);
    TimesSum3(a.x, b.b00 * v.x, b.b10 * v.y, b.b20 * v.z);
    TimesSum3(a.y, b.b01 * v.x, b.b11 * v.y, b.b21 * v.z);
    TimesSum3(a.z, b.b02 * v.x, b.b12 * v.y, b.b22 * v.z);
  }

  lemma SumTimes(p: real, q: real, w: real)
    ensures (p + q) * w == p * w + q * w
  {
  }

  lemma DiffTimes(p: real, q: real, w: real)
    ensures (p - q) * w == p * w - q * w
  {
  }

  lemma SumTimes3(p: real, q: real, r: real, w: real)
    ensures (p + q + r) * w == p * w + q * w + r * w
  {
  }

  lemma TimesSum3(w: real, p: real, q: real, r: real)
    ensures w * (p + q + r) == w * p + w * q + w * r
  {
  }

  lemma TimesDiff(w: real, p: real, q: real)
    ensures w * (p - q) == w * p - w * q
  {
  }

  /** The rows of a right product. */
  lemma MultipliedRows(m: seq<real>, b: Factor)
    requires |m| == 16
    ensures Row(Multiplied(m, b), 0) == FactorRow(Row(m, 0), b)
    ensures Row(Multiplied(m, b), 1) == FactorRow(Row(m, 1), b)
    ensures Row(Multiplied(m, b), 2) == FactorRow(Row(m, 2), b)
    ensures Row(Multiplied(m, b), 3) == FactorRow(Row(m, 3), b)
  {
  }

  /** Transforming after a right product by `b` is transforming the point mapped by
    * `b`: every edit but `Translate` acts on the point before the old matrix does. */
  lemma MultipliedTransform(m: seq<real>, b: Factor, v: Vector3)
    requires |m| == 16
    ensures TransformNormal(Multiplied(m, b), v) == TransformNormal(m, ApplyFactor(b, v))
    ensures Transform(Multiplied(m, b), v) == Transform(m, ApplyFactor(b, v))
  {
    var n := Multiplied(m, b);
    MultipliedRows(m, b);
    assert n[12] == m[12] && n[13] == m[13] && n[14] == m[14];
    Regroup(Row(m, 0), b, v);
    Regroup(Row(m, 1), b, v);
    Regroup(Row(m, 2), b, v);
  }

  /** Two matrices with the same four rows and the same translation column are
    * equal. */
  lemma SameRows(l: seq<real>, r: seq<real>)
    requires |l| == 16 && |r| == 16
    requires Row(l, 0) == Row(r, 0) && Row(l, 1) == Row(r, 1) && Row(l, 2) == Row(r, 2) && Row(l, 3) == Row(r, 3)
    requires l[12..] == r[12..]
    ensures l == r
  {
    forall i | 0 <= i < 16
      ensures l[i] == r[i]
    {
      if i < 4 {
        assert Row(l, i).x == Row(r, i).x;
      } else if i < 8 {
        assert Row(l, i - 4).y == Row(r, i - 4).y;
      } else if i < 12 {
        assert Row(l, i - 8).z == Row(r, i - 8).z;
      } else {
        assert l[12..][i - 12] == r[12..][i - 12];
      }
    }
  }

  /** Row `k` of `Scale(x, y, z)` and of the matching right product. */
  lemma ScaledRow(m: seq<real>, x: real, y: real, z: real, k: int)
    requires |m| == 16 && 0 <= k < 4
    ensures Row(Scaled(m, x, y, z), k) == Vector3(m[k] * x, m[4 + k] * y, m[8 + k] * z)
    ensures FactorRow(Row(m, k), Diagonal3(x, y, z)) == Vector3(m[k] * x, m[4 + k] * y, m[8 + k] * z)
  {
  }

  /** `Scale(x, y, z)` is the right product with a diagonal factor. */
  lemma ScaledIsProduct(m: seq<real>, x: real, y: real, z: real)
    requires |m| == 16
    ensures Scaled(m, x, y, z) == Multiplied(m, Diagonal3(x, y, z))
  {
    MultipliedRows(m, Diagonal3(x, y, z));
    ScaledRow(m, x, y, z, 0);
    ScaledRow(m, x, y, z, 1);
    ScaledRow(m, x, y, z, 2);
    ScaledRow(m, x, y, z, 3);
    SameRows(Scaled(m, x, y, z), Multiplied(m, Diagonal3(x, y, z)));
  }

  /** Row `k` of `RotateX` and of the matching right product. */
  lemma RotatedXRow(m: seq<real>, s: real, c: real, k: int)
    requires |m| == 16 && 0 <= k < 4
    ensures Row(RotatedX(m, s, c), k) == Vector3(m[k], PlaneEntry(m[4 + k], m[8 + k], s, c), PlaneEntry(m[8 + k], -m[4 + k], s, c))
    ensures FactorRow(Row(m, k), FactorX(s, c)) == Vector3(m[k], PlaneEntry(m[4 + k], m[8 + k], s, c), PlaneEntry(m[8 + k], -m[4 + k], s, c))
  {
  }

  /** Row `k` of `RotateY` and of the matching right product. */
  lemma RotatedYRow(m: seq<real>, s: real, c: real, k: int)
    requires |m| == 16 && 0 <= k < 4
    ensures Row(RotatedY(m, s, c), k) == Vector3(PlaneEntry(m[k], -m[8 + k], s, c), m[4 + k], PlaneEntry(m[8 + k], m[k], s, c))
    ensures FactorRow(Row(m, k), FactorY(s, c)) == Vector3(PlaneEntry(m[k], -m[8 + k], s, c), m[4 + k], PlaneEntry(m[8 + k], m[k], s, c))
  {
  }

  /** Row `k` of `RotateZ` and of the matching right product. */
  lemma RotatedZRow(m: seq<real>, s: real, c: real, k: int)
    requires |m| == 16 && 0 <= k < 4
    ensures Row(RotatedZ(m, s, c), k) == Vector3(PlaneEntry(m[k], m[4 + k], s, c), PlaneEntry(m[4 + k], -m[k], s, c), m[8 + k])
    ensures FactorRow(Row(m, k), FactorZ(s, c)) == Vector3(PlaneEntry(m[k], m[4 + k], s, c), PlaneEntry(m[4 + k], -m[k], s, c), m[8 + k])
  {
  }

  /** A matrix holding the entries `RotateX` writes is `RotatedX`. */
  lemma RotatedXEntries(a: seq<real>, r: seq<real>, s: real, c: real)
    requires |a| == 16 && |r| == 16
    requires forall i :: 4 <= i < 8 ==> r[i] == PlaneEntry(a[i], a[i + 4], s, c)
    requires forall i :: 8 <= i < 12 ==> r[i] == PlaneEntry(a[i], -a[i - 4], s, c)
    requires forall i :: 0 <= i < 4 || 12 <= i < 16 ==> r[i] == a[i]
    ensures r == RotatedX(a, s, c)
  {
    var e := RotatedX(a, s, c);
    assert forall i :: 0 <= i < 16 ==> r[i] == e[i];
  }

  /** A matrix holding the entries `RotateY` writes is `RotatedY`. */
  lemma RotatedYEntries(a: seq<real>, r: seq<real>, s: real, c: real)
    requires |a| == 16 && |r| == 16
    requires forall i :: 0 <= i < 4 ==> r[i] == PlaneEntry(a[i], -a[i + 8], s, c)
    requires forall i :: 8 <= i < 12 ==> r[i] == PlaneEntry(a[i], a[i - 8], s, c)
    requires forall i :: 4 <= i < 8 || 12 <= i < 16 ==> r[i] == a[i]
    ensures r == RotatedY(a, s, c)
  {
    var e := RotatedY(a, s, c);
    assert forall i :: 0 <= i < 16 ==> r[i] == e[i];
  }

  /** A matrix holding the entries `RotateZ` writes is `RotatedZ`. */
  lemma RotatedZEntries(a: seq<real>, r: seq<real>, s: real, c: real)
    requires |a| == 16 && |r| == 16
    requires forall i :: 0 <= i < 4 ==> r[i] == PlaneEntry(a[i], a[i + 4], s, c)
    requires forall i :: 4 <= i < 8 ==> r[i] == PlaneEntry(a[i], -a[i - 4], s, c)
    requires forall i :: 8 <= i < 16 ==> r[i] == a[i]
    ensures r == RotatedZ(a, s, c)
  {
    var e := RotatedZ(a, s, c);
    assert forall i :: 0 <= i < 16 ==> r[i] == e[i];
  }

  /** `RotateX`, `RotateY` and `RotateZ` are right products with plane rotations. */
  lemma RotatedXIsProduct(m: seq<real>, s: real, c: real)
    requires |m| == 16
    ensures RotatedX(m, s, c) == Multiplied(m, FactorX(s, c))
  {
    MultipliedRows(m, FactorX(s, c));
    RotatedXRow(m, s, c, 0);
    RotatedXRow(m, s, c, 1);
    RotatedXRow(m, s, c, 2);
    RotatedXRow(m, s, c, 3);
    SameRows(RotatedX(m, s, c), Multiplied(m, FactorX(s, c)));
  }

  lemma RotatedYIsProduct(m: seq<real>, s: real, c: real)
    requires |m| == 16
    ensures RotatedY(m, s, c) == Multiplied(m, FactorY(s, c))
  {
    MultipliedRows(m, FactorY(s, c));
    RotatedYRow(m, s, c, 0);
    RotatedYRow(m, s, c, 1);
    RotatedYRow(m, s, c, 2);
    RotatedYRow(m, s, c, 3);
    SameRows(RotatedY(m, s, c), Multiplied(m, FactorY(s, c)));
  }

  lemma RotatedZIsProduct(m: seq<real>, s: real, c: real)
    requires |m| == 16
    ensures RotatedZ(m, s, c) == Multiplied(m, FactorZ(s, c))
  {
    MultipliedRows(m, FactorZ(s, c));
    RotatedZRow(m, s, c, 0);
    RotatedZRow(m, s, c, 1);
    RotatedZRow(m, s, c, 2);
    RotatedZRow(m, s, c, 3);
    SameRows(RotatedZ(m, s, c), Multiplied(m, FactorZ(s, c)));
  }

  /** Transforming after `Scale(x, y, z)` is transforming the scaled point. */
  lemma ScaledTransform(m: seq<real>, x: real, y: real, z: real, v: Vector3)
    requires |m| == 16
    ensures Transform(Scaled(m, x, y, z), v) == Transform(m, Vector3(x * v.x, y * v.y, z * v.z))
  {
    ScaledIsProduct(m, x, y, z);
    MultipliedTransform(m, Diagonal3(x, y, z), v);
    assert ApplyFactor(Diagonal3(x, y, z), v) == Vector3(x * v.x, y * v.y, z * v.z);
  }

  /** `RotateX` rotates the point in the y-z plane before the old matrix applies. */
  lemma RotatedXTransform(m: seq<real>, s: real, c: real, v: Vector3)
    requires |m| == 16
    ensures Transform(RotatedX(m, s, c), v) == Transform(m, Vector3(v.x, c * v.y - s * v.z, s * v.y + c * v.z))
  {
    RotatedXIsProduct(m, s, c);
    MultipliedTransform(m, FactorX(s, c), v);
    assert ApplyFactor(FactorX(s, c), v) == Vector3(v.x, c * v.y - s * v.z, s * v.y + c * v.z);
  }

  /** `RotateY` rotates the point in the z-x plane. */
  lemma RotatedYTransform(m: seq<real>, s: real, c: real, v: Vector3)
    requires |m| == 16
    ensures Transform(RotatedY(m, s, c), v) == Transform(m, Vector3(c * v.x + s * v.z, v.y, c * v.z - s * v.x))
  {
    RotatedYIsProduct(m, s, c);
    MultipliedTransform(m, FactorY(s, c), v);
    assert ApplyFactor(FactorY(s, c), v) == Vector3(c * v.x + s * v.z, v.y, c * v.z - s * v.x);
  }

  /** `RotateZ` rotates the point in the x-y plane. */
  lemma RotatedZTransform(m: seq<real>, s: real, c: real, v: Vector3)
    requires |m| == 16
    ensures Transform(RotatedZ(m, s, c), v) == Transform(m, Vector3(c * v.x - s * v.y, s * v.x + c * v.y, v.z))
  {
    RotatedZIsProduct(m, s, c);
    MultipliedTransform(m, FactorZ(s, c), v);
    assert ApplyFactor(FactorZ(s, c), v) == Vector3(c * v.x - s * v.y, s * v.x + c * v.y, v.z);
  }

  /** One coordinate of Rodrigues' formula against the matching row of the factor
    * (`e0`, `e3`, `e6`); the other two coordinates are its cyclic permutations. */
  lemma RodriguesCoordinate(e0: real, e3: real, e6: real, dot: real, cross: real,
                            ua: real, ub: real, uc: real, va: real, vb: real, vc: real, s: real, c: real)
    requires e0 == AxisDiag(ua, c) && e3 == AxisMinus(ua, ub, uc, s, c) && e6 == AxisPlus(ua, uc, ub, s, c)
    requires dot == ua * va + ub * vb + uc * vc && cross == ub * vc - uc * vb
    ensures va * c + ua * ((1.0 - c) * dot) + cross * s == e0 * va + e3 * vb + e6 * vc
  {
    RodriguesDotTerm(ua, ub, uc, va, vb, vc, c, dot);
    DiffTimes(ub * vc, uc * vb, s);
    SumTimes(ua * ua * (1.0 - c), c, va);
    DiffTimes(ua * ub * (1.0 - c), uc * s, vb);
    SumTimes(ua * uc * (1.0 - c), ub * s, vc);
    SwapLast(uc, s, vb);
    SwapLast(ub, s, vc);
    TimesComm(va, c);
  }

  /** The `(1 - c)` part of Rodrigues' formula, spread over the terms of the dot product. */
  lemma RodriguesDotTerm(ua: real, ub: real, uc: real, va: real, vb: real, vc: real, c: real, dot: real)
    requires dot == ua * va + ub * vb + uc * vc
    ensures ua * ((1.0 - c) * dot)
      == (ua * ua * (1.0 - c)) * va + (ua * ub * (1.0 - c)) * vb + (ua * uc * (1.0 - c)) * vc
  {
    var k := 1.0 - c;
    assert ua * (k * dot) == (ua * k) * dot;
    TimesSum3(ua * k, ua * va, ub * vb, uc * vc);
    assert (ua * k) * (ua * va) == (ua * ua * k) * va;
    assert (ua * k) * (ub * vb) == (ua * ub * k) * vb;
    assert (ua * k) * (uc * vc) == (ua * uc * k) * vc;
  }

  lemma TimesComm(p: real, q: real)
    ensures p * q == q * p
  {
  }

  lemma SwapLast(p: real, q: real, w: real)
    ensures (p * q) * w == (p * w) * q
  {
  }

  lemma AxisFactorRodriguesX(u: Vector3, s: real, c: real, v: Vector3)
    ensures ApplyFactor(AxisFactor(u, s, c), v).x == Rodrigues(u, s, c, v).x
  {
    var b := AxisFactor(u, s, c);
    ApplyFactorFirst(b, v);
    RodriguesCoordinate(b.b00, b.b10, b.b20, Dot(u, v), Cross(u, v).x, u.x, u.y, u.z, v.x, v.y, v.z, s, c);
  }

  lemma ApplyFactorFirst(b: Factor, v: Vector3)
    ensures ApplyFactor(b, v).x == b.b00 * v.x + b.b10 * v.y + b.b20 * v.z
  {
  }


  /** The coordinates turned one step: (x, y, z) to (y, z, x). */
  function Turn(v: Vector3): (r: Vector3)
    ensures r.x == v.y && r.y == v.z && r.z == v.x
  {
    Vector3(v.y, v.z, v.x)
  }

  /** Both sides of the axis rotation commute with turning the coordinates, so the
    * y and z coordinates follow from the x coordinate. */
  lemma AxisFactorTurn(u: Vector3, s: real, c: real, v: Vector3)
    ensures ApplyFactor(AxisFactor(u, s, c), v).y == ApplyFactor(AxisFactor(Turn(u), s, c), Turn(v)).x
    ensures ApplyFactor(AxisFactor(u, s, c), v).z == ApplyFactor(AxisFactor(Turn(Turn(u)), s, c), Turn(Turn(v))).x
  {
    var b := AxisFactor(u, s, c);
    AxisFactorFieldsTurn(u, s, c);
    AxisFactorFieldsTurn(Turn(u), s, c);
    SumTurn(b.b01, b.b11, b.b21, v.x, v.y, v.z);
    SumTurn(b.b02, b.b12, b.b22, v.x, v.y, v.z);
  }

  lemma AxisFactorFieldsTurn(u: Vector3, s: real, c: real)
    ensures AxisFactor(Turn(u), s, c).b00 == AxisFactor(u, s, c).b11
    ensures AxisFactor(Turn(u), s, c).b10 == AxisFactor(u, s, c).b21
    ensures AxisFactor(Turn(u), s, c).b20 == AxisFactor(u, s, c).b01
    ensures AxisFactor(Turn(u), s, c).b11 == AxisFactor(u, s, c).b22
    ensures AxisFactor(Turn(u), s, c).b21 == AxisFactor(u, s, c).b02
    ensures AxisFactor(Turn(u), s, c).b01 == AxisFactor(u, s, c).b12
  {
  }

  lemma SumTurn(p: real, q: real, r: real, x: real, y: real, z: real)
    ensures p * x + q * y + r * z == q * y + r * z + p * x
    ensures p * x + q * y + r * z == r * z + p * x + q * y
  {
  }

  lemma RodriguesTurn(u: Vector3, s: real, c: real, v: Vector3)
    ensures Rodrigues(u, s, c, v).y == Rodrigues(Turn(u), s, c, Turn(v)).x
    ensures Rodrigues(u, s, c, v).z == Rodrigues(Turn(Turn(u)), s, c, Turn(Turn(v))).x
  {
    TurnKeepsProducts(u, v);
    TurnKeepsProducts(Turn(u), Turn(v));
  }

  /** Turning both vectors keeps their dot product and turns their cross product. */
  lemma TurnKeepsProducts(u: Vector3, v: Vector3)
    ensures Dot(Turn(u), Turn(v)) == Dot(u, v)
    ensures Cross(Turn(u), Turn(v)) == Turn(Cross(u, v))
  {
  }


  lemma AxisFactorRodriguesY(u: Vector3, s: real, c: real, v: Vector3)
    ensures ApplyFactor(AxisFactor(u, s, c), v).y == Rodrigues(u, s, c, v).y
  {
    AxisFactorTurn(u, s, c, v);
    RodriguesTurn(u, s, c, v);
    AxisFactorRodriguesX(Turn(u), s, c, Turn(v));
  }

  lemma AxisFactorRodriguesZ(u: Vector3, s: real, c: real, v: Vector3)
    ensures ApplyFactor(AxisFactor(u, s, c), v).z == Rodrigues(u, s, c, v).z
  {
    AxisFactorTurn(u, s, c, v);
    RodriguesTurn(u, s, c, v);
    AxisFactorRodriguesX(Turn(Turn(u)), s, c, Turn(Turn(v)));
  }

  /** `Rotate(axis, rad)` applies Rodrigues' rotation about the axis to the point. */
  lemma RotatedAboutTransform(m: seq<real>, u: Vector3, s: real, c: real, v: Vector3)
    requires |m| == 16
    ensures Transform(RotatedAbout(m, u, s, c), v) == Transform(m, Rodrigues(u, s, c, v))
  {
    MultipliedTransform(m, AxisFactor(u, s, c), v);
    AxisFactorRodriguesX(u, s, c, v);
    AxisFactorRodriguesY(u, s, c, v);
    AxisFactorRodriguesZ(u, s, c, v);
  }

  /** The axis rotations are `Rotate` about the coordinate axes. */
  lemma AxisRotationsAreRotateAbout(m: seq<real>, s: real, c: real)
    requires |m| == 16
    ensures RotatedX(m, s, c) == RotatedAbout(m, Vector3(1.0, 0.0, 0.0), s, c)
    ensures RotatedY(m, s, c) == RotatedAbout(m, Vector3(0.0, 1.0, 0.0), s, c)
    ensures RotatedZ(m, s, c) == RotatedAbout(m, Vector3(0.0, 0.0, 1.0), s, c)
  {
    RotatedXIsProduct(m, s, c);
    RotatedYIsProduct(m, s, c);
    RotatedZIsProduct(m, s, c);
    assert AxisFactor(Vector3(1.0, 0.0, 0.0), s, c) == FactorX(s, c);
    assert AxisFactor(Vector3(0.0, 1.0, 0.0), s, c) == FactorY(s, c);
    assert AxisFactor(Vector3(0.0, 0.0, 1.0), s, c) == FactorZ(s, c);
  }

  /** Transforming after `Translate(t)` is transforming `v + t`; directions are
    * unaffected. */
  lemma TranslatedTransform(m: seq<real>, t: Vector3, v: Vector3)
    requires |m| == 16
    ensures TransformNormal(Translated(m, t.x, t.y, t.z), v) == TransformNormal(m, v)
    ensures Transform(Translated(m, t.x, t.y, t.z), v) == Transform(m, Add(v, t))
  {
    var n := Translated(m, t.x, t.y, t.z);
    assert TransformNormal(n, v) == TransformNormal(m, v) by {
      assert n[0] == m[0] && n[1] == m[1] && n[2] == m[2] && n[4] == m[4] && n[5] == m[5];
      assert n[6] == m[6] && n[8] == m[8] && n[9] == m[9] && n[10] == m[10];
    }
    assert Column(n, 3) == Add(TransformNormal(m, t), Column(m, 3)) by {
      assert n[12] == m[0] * t.x + m[4] * t.y + m[8] * t.z + m[12];
      assert n[13] == m[1] * t.x + m[5] * t.y + m[9] * t.z + m[13];
      assert n[14] == m[2] * t.x + m[6] * t.y + m[10] * t.z + m[14];
    }
    TransformNormalLinear(m, v, t, 1.0);
    assert Transform(m, Add(v, t)) == Add(Add(TransformNormal(m, v), TransformNormal(m, t)), Column(m, 3));
  }

  /** Two translations compose into the translation by the sum. */
  lemma TranslateCompose(m: seq<real>, a: Vector3, b: Vector3)
    requires |m| == 16
    ensures Translated(Translated(m, a.x, a.y, a.z), b.x, b.y, b.z) == Translated(m, a.x + b.x, a.y + b.y, a.z + b.z)
  {
    var n := Translated(m, a.x, a.y, a.z);
    var l, r := Translated(n, b.x, b.y, b.z), Translated(m, a.x + b.x, a.y + b.y, a.z + b.z);
    forall i | 0 <= i < 16
      ensures l[i] == r[i]
    {
      if 12 <= i {
        var k := i - 12;
        assert n[k] == m[k] && n[4 + k] == m[4 + k] && n[8 + k] == m[8 + k];
        assert m[k] * (a.x + b.x) == m[k] * a.x + m[k] * b.x;
        assert m[4 + k] * (a.y + b.y) == m[4 + k] * a.y + m[4 + k] * b.y;
        assert m[8 + k] * (a.z + b.z) == m[8 + k] * a.z + m[8 + k] * b.z;
      }
    }
  }

  /** On the identity, `Translate(x, y, z)` sets entries 12..15 to (x, y, z, 1). */
  lemma TranslateIdentity(x: real, y: real, z: real)
    ensures Translated(Identity, x, y, z) ==
      [1.0, 0.0, 0.0, 0.0, 0.0, 1.0, 0.0, 0.0, 0.0, 0.0, 1.0, 0.0, x, y, z, 1.0]
  {
    var r := Translated(Identity, x, y, z);
    assert r[12] == x && r[13] == y && r[14] == z && r[15] == 1.0;
    assert forall i :: 0 <= i < 12 ==> r[i] == Identity[i];
  }

  /** Scale, Translate and the rotations keep the bottom row (0, 0, 0, 1). */
  lemma EditsKeepAffine(m: seq<real>, x: real, y: real, z: real, u: Vector3, s: real, c: real)
    requires |m| == 16 && Affine(m)
    ensures Affine(Scaled(m, x, y, z)) && Affine(Translated(m, x, y, z))
    ensures Affine(RotatedX(m, s, c)) && Affine(RotatedY(m, s, c)) && Affine(RotatedZ(m, s, c))
    ensures Affine(RotatedAbout(m, u, s, c))
  {
  }

  // ------------------------------------------------------------ determinants

  /** The upper-left 3x3 determinant that `SwapsHandedness` computes. */
  function Det3(m: seq<real>): real
    requires |m| == 16
  {
    m[0] * (m[5] * m[10] - m[6] * m[9]) - m[1] * (m[4] * m[10] - m[6] * m[8])
      + m[2] * (m[4] * m[9] - m[5] * m[8])
  }

  /** `SwapsHandedness()`: the 3x3 determinant is negative. */
  predicate SwapsHandedness(m: seq<real>)
    requires |m| == 16
  {
    Det3(m) < 0.0
  }

  /** The identity keeps handedness and a mirror in x swaps it; scaling multiplies
    * the 3x3 determinant by `x * y * z` and translating leaves it alone. */
  lemma HandednessUnderEdits(m: seq<real>, x: real, y: real, z: real)
    requires |m| == 16
    ensures !SwapsHandedness(Identity)
    ensures SwapsHandedness(Scaled(Identity, -1.0, 1.0, 1.0))
    ensures Det3(Scaled(m, x, y, z)) == x * y * z * Det3(m)
    ensures Det3(Translated(m, x, y, z)) == Det3(m)
  {
    ScaledDet3(m, x, y, z);
    ScaledDet3(Identity, -1.0, 1.0, 1.0);
    assert Det3(Identity) == 1.0;
  }

  lemma ScaledDet3(m: seq<real>, x: real, y: real, z: real)
    requires |m| == 16
    ensures Det3(Scaled(m, x, y, z)) == x * y * z * Det3(m)
  {
    var n := Scaled(m, x, y, z);
    assert n[0] == m[0] * x && n[1] == m[1] * x && n[2] == m[2] * x;
    assert n[4] == m[4] * y && n[5] == m[5] * y && n[6] == m[6] * y;
    assert n[8] == m[8] * z && n[9] == m[9] * z && n[10] == m[10] * z;
    ScaledMinor(m[0], m[5], m[10], m[6], m[9], x, y, z);
    ScaledMinor(m[1], m[4], m[10], m[6], m[8], x, y, z);
    ScaledMinor(m[2], m[4], m[9], m[5], m[8], x, y, z);
    var t0 := m[0] * (m[5] * m[10] - m[6] * m[9]);
    var t1 := m[1] * (m[4] * m[10] - m[6] * m[8]);
    var t2 := m[2] * (m[4] * m[9] - m[5] * m[8]);
    TimesDiff(x * y * z, t0, t1);
    SumTimes(t0 - t1, t2, x * y * z);
  }

  /** One term of the 3x3 determinant after scaling its three rows. */
  lemma ScaledMinor(a: real, p: real, q: real, r: real, t: real, x: real, y: real, z: real)
    ensures (a * x) * ((p * y) * (q * z) - (r * y) * (t * z)) == x * y * z * (a * (p * q - r * t))
  {
    TimesDiff(a * x, (p * y) * (q * z), (r * y) * (t * z));
    TimesDiff(a, p * q, r * t);
    TimesDiff(x * y * z, a * (p * q), a * (r * t));
    assert (a * x) * ((p * y) * (q * z)) == x * y * z * (a * (p * q));
    assert (a * x) * ((r * y) * (t * z)) == x * y * z * (a * (r * t));
  }

  /** Numerator `i` of `Inverse` (entry `i` of the adjugate). */
  function Cofactor(m: seq<real>, i: int): real
    requires |m| == 16 && 0 <= i < 16
  {
    if i == 0 then m[9] * m[14] * m[7] - m[13] * m[10] * m[7] + m[13] * m[6] * m[11] - m[5] * m[14] * m[11] - m[9] * m[6] * m[15] + m[5] * m[10] * m[15]
    else if i == 1 then m[13] * m[10] * m[3] - m[9] * m[14] * m[3] - m[13] * m[2] * m[11] + m[1] * m[14] * m[11] + m[9] * m[2] * m[15] - m[1] * m[10] * m[15]
    else if i == 2 then m[5] * m[14] * m[3] - m[13] * m[6] * m[3] + m[13] * m[2] * m[7] - m[1] * m[14] * m[7] - m[5] * m[2] * m[15] + m[1] * m[6] * m[15]
    else if i == 3 then m[9] * m[6] * m[3] - m[5] * m[10] * m[3] - m[9] * m[2] * m[7] + m[1] * m[10] * m[7] + m[5] * m[2] * m[11] - m[1] * m[6] * m[11]
    else if i == 4 then m[12] * m[10] * m[7] - m[8] * m[14] * m[7] - m[12] * m[6] * m[11] + m[4] * m[14] * m[11] + m[8] * m[6] * m[15] - m[4] * m[10] * m[15]
    else if i == 5 then m[8] * m[14] * m[3] - m[12] * m[10] * m[3] + m[12] * m[2] * m[11] - m[0] * m[14] * m[11] - m[8] * m[2] * m[15] + m[0] * m[10] * m[15]
    else if i == 6 then m[12] * m[6] * m[3] - m[4] * m[14] * m[3] - m[12] * m[2] * m[7] + m[0] * m[14] * m[7] + m[4] * m[2] * m[15] - m[0] * m[6] * m[15]
    else if i == 7 then m[4] * m[10] * m[3] - m[8] * m[6] * m[3] + m[8] * m[2] * m[7] - m[0] * m[10] * m[7] - m[4] * m[2] * m[11] + m[0] * m[6] * m[11]
    else if i == 8 then m[8] * m[13] * m[7] - m[12] * m[9] * m[7] + m[12] * m[5] * m[11] - m[4] * m[13] * m[11] - m[8] * m[5] * m[15] + m[4] * m[9] * m[15]
    else if i == 9 then m[12] * m[9] * m[3] - m[8] * m[13] * m[3] - m[12] * m[1] * m[11] + m[0] * m[13] * m[11] + m[8] * m[1] * m[15] - m[0] * m[9] * m[15]
    else if i == 10 then m[4] * m[13] * m[3] - m[12] * m[5] * m[3] + m[12] * m[1] * m[7] - m[0] * m[13] * m[7] - m[4] * m[1] * m[15] + m[0] * m[5] * m[15]
    else if i == 11 then m[8] * m[5] * m[3] - m[4] * m[9] * m[3] - m[8] * m[1] * m[7] + m[0] * m[9] * m[7] + m[4] * m[1] * m[11] - m[0] * m[5] * m[11]
    else if i == 12 then m[12] * m[9] * m[6] - m[8] * m[13] * m[6] - m[12] * m[5] * m[10] + m[4] * m[13] * m[10] + m[8] * m[5] * m[14] - m[4] * m[9] * m[14]
    else if i == 13 then m[8] * m[13] * m[2] - m[12] * m[9] * m[2] + m[12] * m[1] * m[10] - m[0] * m[13] * m[10] - m[8] * m[1] * m[14] + m[0] * m[9] * m[14]
    else if i == 14 then m[12] * m[5] * m[2] - m[4] * m[13] * m[2] - m[12] * m[1] * m[6] + m[0] * m[13] * m[6] + m[4] * m[1] * m[14] - m[0] * m[5] * m[14]
    else m[4] * m[9] * m[2] - m[8] * m[5] * m[2] + m[8] * m[1] * m[6] - m[0] * m[9] * m[6] - m[4] * m[1] * m[10] + m[0] * m[5] * m[10]
  }

  /** `det` in `Inverse`: the first row of `mat` against the first four cofactors. */
  function Det(m: seq<real>): real
    requires |m| == 16
  {
    m[0] * Cofactor(m, 0) + m[1] * Cofactor(m, 4) + m[2] * Cofactor(m, 8) + m[3] * Cofactor(m, 12)
  }

  /** `Inverse(mat)` once `CHECK_NE(det, 0)` has passed: every cofactor times
    * `1 / det`. */
  function InverseEntries(m: seq<real>): (r: seq<real>)
    requires |m| == 16 && Det(m) != 0.0
    ensures |r| == 16
  {
    Adjugate(m, 1.0 / Det(m))
  }

  /** Every cofactor of `m` times `k`. */
  function Adjugate(m: seq<real>, k: real): (r: seq<real>)
    requires |m| == 16
    ensures |r| == 16
  {
    seq(16, i requires 0 <= i < 16 => Cofactor(m, i) * k)
  }

  lemma InverseOfIdentity()
    ensures Det(Identity) == 1.0
    ensures InverseEntries(Identity) == Identity
  {
  }

  /** The cofactors of a translation are the entries of the opposite translation,
    * and its determinant is one. */
  lemma CofactorsOfTranslation(x: real, y: real, z: real)
    ensures Det(Translated(Identity, x, y, z)) == 1.0
    ensures forall i | 0 <= i < 16 :: Cofactor(Translated(Identity, x, y, z), i) == Translated(Identity, -x, -y, -z)[i]
  {
    var m, e := Translated(Identity, x, y, z), Translated(Identity, -x, -y, -z);
    TranslateIdentity(x, y, z);
    TranslateIdentity(-x, -y, -z);
    assert m[0] == 1.0 && m[1] == 0.0 && m[2] == 0.0 && m[3] == 0.0 && m[4] == 0.0 && m[5] == 1.0;
    assert m[6] == 0.0 && m[7] == 0.0 && m[8] == 0.0 && m[9] == 0.0 && m[10] == 1.0 && m[11] == 0.0;
    assert m[12] == x && m[13] == y && m[14] == z && m[15] == 1.0;
    assert forall i | 0 <= i < 16 :: Cofactor(m, i) == e[i];
  }

  /** The inverse of a translation is the opposite translation, and it undoes the
    * translation of every point. */
  lemma InverseOfTranslation(t: Vector3, v: Vector3)
    ensures Det(Translated(Identity, t.x, t.y, t.z)) == 1.0
    ensures InverseEntries(Translated(Identity, t.x, t.y, t.z)) == Translated(Identity, -t.x, -t.y, -t.z)
    ensures Transform(InverseEntries(Translated(Identity, t.x, t.y, t.z)),
                      Transform(Translated(Identity, t.x, t.y, t.z), v)) == v
  {
    var m := Translated(Identity, t.x, t.y, t.z);
    CofactorsOfTranslation(t.x, t.y, t.z);
    var inv, back := InverseEntries(m), Translated(Identity, -t.x, -t.y, -t.z);
    assert forall i | 0 <= i < 16 :: inv[i] == back[i];
    var u := Transform(m, v);
    TranslatedTransform(Identity, t, v);
    TransformIdentity(Add(v, t));
    TranslatedTransform(Identity, Neg(t), u);
    TransformIdentity(Add(u, Neg(t)));
  }

  /** The diagonal matrix with entries `a`, `b`, `c`, `d`. */
  function Diagonal4(a: real, b: real, c: real, d: real): (r: seq<real>)
    ensures |r| == 16 && r[0] == a && r[5] == b && r[10] == c && r[15] == d
    ensures forall i | 0 <= i < 16 && i != 0 && i != 5 && i != 10 && i != 15 :: r[i] == 0.0
  {
    seq(16, i requires 0 <= i < 16 => if i == 0 then a else if i == 5 then b else if i == 10 then c
                                      else if i == 15 then d else 0.0)
  }

  /** The determinant of a diagonal matrix is the product of its entries. */
  lemma DetOfDiagonal(a: real, b: real, c: real, d: real)
    ensures Det(Diagonal4(a, b, c, d)) == a * (b * c * d)
  {
    var m := Diagonal4(a, b, c, d);
    assert m[1] == 0.0 && m[2] == 0.0 && m[3] == 0.0 && m[4] == 0.0 && m[6] == 0.0 && m[7] == 0.0;
    assert m[8] == 0.0 && m[9] == 0.0 && m[11] == 0.0 && m[12] == 0.0 && m[13] == 0.0 && m[14] == 0.0;
  }

  /** The cofactors of a diagonal matrix form the diagonal of the complementary
    * products; scaled by `k` they are the diagonal of `p`, `q`, `r`, `t`. */
  lemma AdjugateOfDiagonal(a: real, b: real, c: real, d: real, k: real, p: real, q: real, r: real, t: real)
    requires (b * c * d) * k == p && (a * c * d) * k == q && (a * b * d) * k == r && (a * b * c) * k == t
    ensures Adjugate(Diagonal4(a, b, c, d), k) == Diagonal4(p, q, r, t)
  {
    var m, adj, want := Diagonal4(a, b, c, d), Adjugate(Diagonal4(a, b, c, d), k), Diagonal4(p, q, r, t);
    DiagonalCofactors(a, b, c, d);
    DiagonalCofactorsOffLow(a, b, c, d);
    DiagonalCofactorsOffHigh(a, b, c, d);
    forall i | 0 <= i < 16
      ensures adj[i] == want[i]
    {
      if i == 0 || i == 5 || i == 10 || i == 15 {
      } else if i < 8 {
        assert i == 1 || i == 2 || i == 3 || i == 4 || i == 6 || i == 7;
      } else {
        assert i == 8 || i == 9 || i == 11 || i == 12 || i == 13 || i == 14;
      }
    }
  }

  lemma DiagonalCofactors(a: real, b: real, c: real, d: real)
    ensures Cofactor(Diagonal4(a, b, c, d), 0) == b * c * d && Cofactor(Diagonal4(a, b, c, d), 5) == a * c * d
    ensures Cofactor(Diagonal4(a, b, c, d), 10) == a * b * d && Cofactor(Diagonal4(a, b, c, d), 15) == a * b * c
  {
    var m := Diagonal4(a, b, c, d);
    assert m[1] == 0.0 && m[2] == 0.0 && m[3] == 0.0 && m[4] == 0.0 && m[6] == 0.0 && m[7] == 0.0;
    assert m[8] == 0.0 && m[9] == 0.0 && m[11] == 0.0 && m[12] == 0.0 && m[13] == 0.0 && m[14] == 0.0;
  }

  lemma DiagonalCofactorsOffLow(a: real, b: real, c: real, d: real)
    ensures Cofactor(Diagonal4(a, b, c, d), 1) == 0.0 && Cofactor(Diagonal4(a, b, c, d), 2) == 0.0
    ensures Cofactor(Diagonal4(a, b, c, d), 3) == 0.0 && Cofactor(Diagonal4(a, b, c, d), 4) == 0.0
    ensures Cofactor(Diagonal4(a, b, c, d), 6) == 0.0 && Cofactor(Diagonal4(a, b, c, d), 7) == 0.0
  {
    var m := Diagonal4(a, b, c, d);
    assert m[1] == 0.0 && m[2] == 0.0 && m[3] == 0.0 && m[4] == 0.0 && m[6] == 0.0 && m[7] == 0.0;
    assert m[8] == 0.0 && m[9] == 0.0 && m[11] == 0.0 && m[12] == 0.0 && m[13] == 0.0 && m[14] == 0.0;
  }

  lemma DiagonalCofactorsOffHigh(a: real, b: real, c: real, d: real)
    ensures Cofactor(Diagonal4(a, b, c, d), 8) == 0.0 && Cofactor(Diagonal4(a, b, c, d), 9) == 0.0
    ensures Cofactor(Diagonal4(a, b, c, d), 11) == 0.0 && Cofactor(Diagonal4(a, b, c, d), 12) == 0.0
    ensures Cofactor(Diagonal4(a, b, c, d), 13) == 0.0 && Cofactor(Diagonal4(a, b, c, d), 14) == 0.0
  {
    var m := Diagonal4(a, b, c, d);
    assert m[1] == 0.0 && m[2] == 0.0 && m[3] == 0.0 && m[4] == 0.0 && m[6] == 0.0 && m[7] == 0.0;
    assert m[8] == 0.0 && m[9] == 0.0 && m[11] == 0.0 && m[12] == 0.0 && m[13] == 0.0 && m[14] == 0.0;
  }

  /** Two matrices with the same first three columns and the same translation
    * column are equal. */
  lemma SameColumns(l: seq<real>, r: seq<real>)
    requires |l| == 16 && |r| == 16 && l[..12] == r[..12]
    requires forall i :: 12 <= i < 16 ==> l[i] == r[i]
    ensures l == r
  {
    forall i | 0 <= i < 12
      ensures l[i] == r[i]
    {
      assert l[..12][i] == r[..12][i];
    }
  }

  /** `Scale(x, y, z)` on the identity gives the diagonal (x, y, z, 1). */
  lemma ScaledIdentity(x: real, y: real, z: real)
    ensures Scaled(Identity, x, y, z) == Diagonal4(x, y, z, 1.0)
  {
    var m, d := Scaled(Identity, x, y, z), Diagonal4(x, y, z, 1.0);
    assert forall i | 0 <= i < 16 :: m[i] == d[i];
  }

  /** The inverse of a diagonal matrix with non-zero entries holds their
    * reciprocals. */
  lemma InverseOfDiagonal(a: real, b: real, c: real, d: real)
    requires a != 0.0 && b != 0.0 && c != 0.0 && d != 0.0
    ensures Det(Diagonal4(a, b, c, d)) == a * (b * c * d) != 0.0
    ensures InverseEntries(Diagonal4(a, b, c, d)) == Diagonal4(1.0 / a, 1.0 / b, 1.0 / c, 1.0 / d)
  {
    var m, k := Diagonal4(a, b, c, d), 1.0 / (a * (b * c * d));
    DetOfDiagonal(a, b, c, d);
    Reciprocals(a, b, c, d);
    AdjugateOfDiagonal(a, b, c, d, k, 1.0 / a, 1.0 / b, 1.0 / c, 1.0 / d);
    InverseIsAdjugate(m, a * (b * c * d));
  }

  /** Once the determinant is known, the inverse is the cofactors over it. */
  lemma InverseIsAdjugate(m: seq<real>, det: real)
    requires |m| == 16 && Det(m) == det && det != 0.0
    ensures InverseEntries(m) == Adjugate(m, 1.0 / det)
  {
  }

  /** The inverse of a scale by non-zero factors scales by their reciprocals. */
  lemma InverseOfScale(x: real, y: real, z: real)
    requires x != 0.0 && y != 0.0 && z != 0.0
    ensures Det(Scaled(Identity, x, y, z)) == x * (y * z * 1.0)
    ensures Det(Scaled(Identity, x, y, z)) != 0.0
    ensures InverseEntries(Scaled(Identity, x, y, z)) == Scaled(Identity, 1.0 / x, 1.0 / y, 1.0 / z)
  {
    ScaledIdentity(x, y, z);
    ScaledIdentity(1.0 / x, 1.0 / y, 1.0 / z);
    InverseOfDiagonal(x, y, z, 1.0);
  }

  /** The products of the other three entries over the product of all four are
    * the reciprocals. */
  lemma Reciprocals(a: real, b: real, c: real, d: real)
    requires a != 0.0 && b != 0.0 && c != 0.0 && d != 0.0
    ensures a * (b * c * d) != 0.0
    ensures (b * c * d) * (1.0 / (a * (b * c * d))) == 1.0 / a
    ensures (a * c * d) * (1.0 / (a * (b * c * d))) == 1.0 / b
    ensures (a * b * d) * (1.0 / (a * (b * c * d))) == 1.0 / c
    ensures (a * b * c) * (1.0 / (a * (b * c * d))) == 1.0 / d
  {
    assert a * b != 0.0;
    assert a * b * c != 0.0;
    var p := a * (b * c * d);
    assert p == a * b * c * d;
    assert p != 0.0;
    var k := 1.0 / p;
    assert p * k == 1.0;
    assert a * ((b * c * d) * k) == 1.0;
    assert b * ((a * c * d) * k) == 1.0;
    assert c * ((a * b * d) * k) == 1.0;
    assert d * ((a * b * c) * k) == 1.0;
  }


  /** `LookAt` as written: every `Normalize` DCHECKs a non-zero length, and after
    * them `CHECK(dir.Length() == 0)` fails, because `dir` was just normalised to
    * length one. `None` stands for the abort. */
  function LookAt(from: Vector3, to: Vector3, up: Vector3, sqrt: real -> real): (r: Option<seq<real>>)
    requires IsSqrt(sqrt)
    ensures r == None
  {
    var toDir := Sub(to, from);
    if Length(toDir, sqrt) == 0.0 || Length(up, sqrt) == 0.0 then None
    else
      var dir := Unit(toDir, sqrt);
      var side := Cross(Unit(up, sqrt), dir);
      if Length(side, sqrt) == 0.0 then None
      else
        var right := Unit(side, sqrt);
        if Length(dir, sqrt) != 0.0 then None
        else
          // the camera matrix and its inverse would be built here, but `dir` has
          // length one, so this point is never reached
          assert false;
          None
  }

  // ------------------------------------------------------------ the object

  /** `Matrix4`: the array `d` of 16 floats, edited in place. */
  class Matrix4 {
    const d: array<real>

    predicate Valid() {
      d.Length == 16
    }

    /** `Matrix4()`: the identity. */
    constructor ()
      ensures Valid() && fresh(d) && d[..] == Identity
    {
      d := new real[16] [1.0, 0.0, 0.0, 0.0, 0.0, 1.0, 0.0, 0.0, 0.0, 0.0, 1.0, 0.0, 0.0, 0.0, 0.0, 1.0];
    }

    /** The sixteen-argument constructor stores its arguments in order. */
    constructor FromEntries(m: seq<real>)
      requires |m| == 16
      ensures Valid() && fresh(d) && d[..] == m
    {
      d := new real[16] (i requires 0 <= i < 16 => m[i]);
    }

    /** `CopyFrom(m)`: all 16 entries, one at a time (also when `m` is this
      * matrix). */
    method CopyFrom(m: Matrix4)
      requires Valid() && m.Valid()
      modifies d
      ensures d[..] == old(m.d[..])
    {
      for i := 0 to 16
        invariant forall j :: 0 <= j < i ==> d[j] == old(m.d[j])
        invariant forall j :: i <= j < 16 ==> d[j] == old(d[j]) && m.d[j] == old(m.d[j])
      {
        d[i] := m.d[i];
      }
    }

    /** `Scale(x, y, z)`. */
    method Scale(x: real, y: real, z: real)
      requires Valid()
      modifies d
      ensures d[..] == Scaled(old(d[..]), x, y, z)
    {
      forall i | 0 <= i < 12 {
        d[i] := d[i] * (if i < 4 then x else if i < 8 then y else z);
      }
      assert forall i :: 0 <= i < 16 ==> d[i] == Scaled(old(d[..]), x, y, z)[i];
    }

    /** `Scale(const Vector3&)`. */
    method ScaleBy(v: Vector3)
      requires Valid()
      modifies d
      ensures d[..] == Scaled(old(d[..]), v.x, v.y, v.z)
    {
      Scale(v.x, v.y, v.z);
    }

    /** `Scale(float)`: the same factor on every axis. */
    method ScaleUniform(v: real)
      requires Valid()
      modifies d
      ensures d[..] == Scaled(old(d[..]), v, v, v)
    {
      Scale(v, v, v);
    }

    /** `Translate(x, y, z)`. */
    method Translate(x: real, y: real, z: real)
      requires Valid()
      modifies d
      ensures d[..] == Translated(old(d[..]), x, y, z)
    {
      ghost var a := d[..];
      forall i | 12 <= i < 16 {
        d[i] := d[i - 12] * x + d[i - 8] * y + d[i - 4] * z + d[i];
      }
      assert forall i :: 12 <= i < 16 ==> d[i] == Translated(a, x, y, z)[i];
      SameColumns(d[..], Translated(a, x, y, z));
    }

    /** `Translate(const Vector3&)`. */
    method TranslateBy(v: Vector3)
      requires Valid()
      modifies d
      ensures d[..] == Translated(old(d[..]), v.x, v.y, v.z)
    {
      Translate(v.x, v.y, v.z);
    }

    /** `Rotate(axis, rad)`: `Normalize(axis)` DCHECKs a non-zero axis. */
    method Rotate(axis: Vector3, rad: real, sin: real -> real, cos: real -> real, sqrt: real -> real)
      requires Valid() && IsSqrt(sqrt) && Length(axis, sqrt) != 0.0
      modifies d
      ensures d[..] == RotatedAbout(old(d[..]), Unit(axis, sqrt), sin(rad), cos(rad))
    {
      var v := Unit(axis, sqrt);
      var s := sin(rad);
      var c := cos(rad);
      MultiplyBy(AxisFactor(v, s, c));
    }

    /** The body of `Rotate` once the factor `b` is known: the first three columns
      * are read into `a`, and entry `4 * j + k` becomes coordinate `j` of row `k`
      * of the product. */
    method MultiplyBy(b: Factor)
      requires Valid()
      modifies d
      ensures d[..] == Multiplied(old(d[..]), b)
    {
      var a := d[..];
      forall i | 0 <= i < 12 {
        d[i] := Coord(FactorRow(Row(a, i % 4), b), i / 4);
      }
      assert forall i :: 0 <= i < 16 ==> d[i] == Multiplied(a, b)[i];
    }

    /** `RotateX(rad)`. */
    method RotateX(rad: real, sin: real -> real, cos: real -> real)
      requires Valid()
      modifies d
      ensures d[..] == RotatedX(old(d[..]), sin(rad), cos(rad))
    {
      var s, c, a := sin(rad), cos(rad), d[..];
      forall i | 4 <= i < 8 {
        d[i] := PlaneEntry(a[i], a[i + 4], s, c);
      }
      forall i | 8 <= i < 12 {
        d[i] := PlaneEntry(a[i], -a[i - 4], s, c);
      }
      RotatedXEntries(a, d[..], s, c);
    }

    /** `RotateY(rad)`. */
    method RotateY(rad: real, sin: real -> real, cos: real -> real)
      requires Valid()
      modifies d
      ensures d[..] == RotatedY(old(d[..]), sin(rad), cos(rad))
    {
      var s, c, a := sin(rad), cos(rad), d[..];
      forall i | 0 <= i < 4 {
        d[i] := PlaneEntry(a[i], -a[i + 8], s, c);
      }
      forall i | 8 <= i < 12 {
        d[i] := PlaneEntry(a[i], a[i - 8], s, c);
      }
      RotatedYEntries(a, d[..], s, c);
    }

    /** `RotateZ(rad)`. */
    method RotateZ(rad: real, sin: real -> real, cos: real -> real)
      requires Valid()
      modifies d
      ensures d[..] == RotatedZ(old(d[..]), sin(rad), cos(rad))
    {
      var s, c, a := sin(rad), cos(rad), d[..];
      forall i | 0 <= i < 4 {
        d[i] := PlaneEntry(a[i], a[i + 4], s, c);
      }
      forall i | 4 <= i < 8 {
        d[i] := PlaneEntry(a[i], -a[i - 4], s, c);
      }
      RotatedZEntries(a, d[..], s, c);
    }

    /** `RotateXYZ(x, y, z)`: RotateX, then RotateY, then RotateZ. */
    method RotateXYZ(x: real, y: real, z: real, sin: real -> real, cos: real -> real)
      requires Valid()
      modifies d
      ensures d[..] == RotatedZ(RotatedY(RotatedX(old(d[..]), sin(x), cos(x)), sin(y), cos(y)), sin(z), cos(z))
    {
      RotateX(x, sin, cos);
      RotateY(y, sin, cos);
      RotateZ(z, sin, cos);
    }
  }

  /** `RotateXYZ` composes the three axis rotations of the point, Z first. */
  lemma RotateXYZTransform(m: seq<real>, sx: real, cx: real, sy: real, cy: real, sz: real, cz: real, v: Vector3)
    requires |m| == 16
    ensures
      var rz := Vector3(cz * v.x - sz * v.y, sz * v.x + cz * v.y, v.z);
      var ry := Vector3(cy * rz.x + sy * rz.z, rz.y, cy * rz.z - sy * rz.x);
      var rx := Vector3(ry.x, cx * ry.y - sx * ry.z, sx * ry.y + cx * ry.z);
      Transform(RotatedZ(RotatedY(RotatedX(m, sx, cx), sy, cy), sz, cz), v) == Transform(m, rx)
  {
    var m1 := RotatedX(m, sx, cx);
    var m2 := RotatedY(m1, sy, cy);
    var rz := Vector3(cz * v.x - sz * v.y, sz * v.x + cz * v.y, v.z);
    var ry := Vector3(cy * rz.x + sy * rz.z, rz.y, cy * rz.z - sy * rz.x);
    RotatedZTransform(m2, sz, cz, v);
    RotatedYTransform(m1, sy, cy, rz);
    RotatedXTransform(m, sx, cx, ry);
  }

  /** `Inverse(mat)`: `CHECK_NE(det, 0)` aborts on a singular matrix; otherwise a
    * fresh matrix holding the cofactors over the determinant. */
  method Inverse(mat: Matrix4) returns (ret: Matrix4)
    requires mat.Valid() && Det(mat.d[..]) != 0.0
    ensures ret.Valid() && fresh(ret.d)
    ensures ret.d[..] == InverseEntries(mat.d[..])
  {
    var m := mat.d[..];
    ret := new Matrix4.FromEntries(InverseEntries(m));
  }
}
