/** src/core/mat4.h: `Mat4`, a second 4x4 matrix class with the layout of
  * `Matrix4` (entry `4 * j + k` is row `k` of column `j`). Its edits compute the
  * same entries as the `Matrix4` ones, so they are specified by the entry
  * functions of `CoreMatrix4`; what differs is `invert`, which works in place
  * and, on a singular matrix, returns with the entries untouched. */
module CoreMat4 {
  import opened Numerics
  import opened CoreVector3
  import opened CoreMatrix4

  /** `Mat4`: the array `d` of 16 floats, edited in place. */
  class Mat4 {
    const d: array<real>

    predicate Valid() {
      d.Length == 16
    }

    /** `Mat4()`: the identity. */
    constructor ()
      ensures Valid() && fresh(d) && d[..] == Identity
    {
      d := new real[16] [1.0, 0.0, 0.0, 0.0, 0.0, 1.0, 0.0, 0.0, 0.0, 0.0, 1.0, 0.0, 0.0, 0.0, 0.0, 1.0];
    }

    /** `copyFrom(m)`: all 16 entries, one at a time (also when `m` is this
      * matrix). */
    method CopyFrom(m: Mat4)
      requires Valid() && m.Valid()
      modifies d
      ensures d[..] == old(m.d[..])
    {
      for i := 0 to 16
        invariant forall j :: 0 <= j < i ==> d[j] == old(m.d[j])
        invariant forall j :: i <= j < 16 ==> d[j] == old(d[j]) && m.d[j] == old(m.d[j])
      {
        d[i] := m.d[i];
      }
    }

    /** `scale(x, y, z)`: the first three groups of four times `x`, `y`, `z`. */
    method Scale(x: real, y: real, z: real)
      requires Valid()
      modifies d
      ensures d[..] == Scaled(old(d[..]), x, y, z)
    {
      forall i | 0 <= i < 12 {
        d[i] := d[i] * (if i < 4 then x else if i < 8 then y else z);
      }
      assert forall i :: 0 <= i < 16 ==> d[i] == Scaled(old(d[..]), x, y, z)[i];
    }

    /** `scale(const Vector3&)`. */
    method ScaleBy(v: Vector3)
      requires Valid()
      modifies d
      ensures d[..] == Scaled(old(d[..]), v.x, v.y, v.z)
    {
      Scale(v.x, v.y, v.z);
    }

    /** `scale(float)`: the same factor on every axis. */
    method ScaleUniform(v: real)
      requires Valid()
      modifies d
      ensures d[..] == Scaled(old(d[..]), v, v, v)
    {
      Scale(v, v, v);
    }

    /** `translate(x, y, z)`: only the last group of four is written. */
    method Translate(x: real, y: real, z: real)
      requires Valid()
      modifies d
      ensures d[..] == Translated(old(d[..]), x, y, z)
    {
      ghost var a := d[..];
      forall i | 12 <= i < 16 {
        d[i] := d[i - 12] * x + d[i - 8] * y + d[i - 4] * z + d[i];
      }
      assert forall i :: 12 <= i < 16 ==> d[i] == Translated(a, x, y, z)[i];
      SameColumns(d[..], Translated(a, x, y, z));
    }

    /** `translate(const Vector3&)`. */
    method TranslateBy(v: Vector3)
      requires Valid()
      modifies d
      ensures d[..] == Translated(old(d[..]), v.x, v.y, v.z)
    {
      Translate(v.x, v.y, v.z);
    }

    /** `rotate(axis, rad)`: `unit(axis)` divides by the length, which must not be
      * zero; the first three columns are then multiplied by the axis-angle
      * factor. */
    method Rotate(axis: Vector3, rad: real, sin: real -> real, cos: real -> real, sqrt: real -> real)
      requires Valid() && IsSqrt(sqrt) && Length(axis, sqrt) != 0.0
      modifies d
      ensures d[..] == RotatedAbout(old(d[..]), Unit(axis, sqrt), sin(rad), cos(rad))
    {
      var v := Unit(axis, sqrt);
      var b := AxisFactor(v, sin(rad), cos(rad));
      var a := d[..];
      forall i | 0 <= i < 12 {
        d[i] := Coord(FactorRow(Row(a, i % 4), b), i / 4);
      }
      assert forall i :: 0 <= i < 16 ==> d[i] == Multiplied(a, b)[i];
    }

    /** `rotateX(rad)`: rewrites the second and third groups of four. */
    method RotateX(rad: real, sin: real -> real, cos: real -> real)
      requires Valid()
      modifies d
      ensures d[..] == RotatedX(old(d[..]), sin(rad), cos(rad))
    {
      var s, c, a := sin(rad), cos(rad), d[..];
      forall i | 4 <= i < 8 {
        d[i] := PlaneEntry(a[i], a[i + 4], s, c);
      }
      forall i | 8 <= i < 12 {
        d[i] := PlaneEntry(a[i], -a[i - 4], s, c);
      }
      RotatedXEntries(a, d[..], s, c);
    }

    /** `rotateY(rad)`: rewrites the first and third groups of four. */
    method RotateY(rad: real, sin: real -> real, cos: real -> real)
      requires Valid()
      modifies d
      ensures d[..] == RotatedY(old(d[..]), sin(rad), cos(rad))
    {
      var s, c, a := sin(rad), cos(rad), d[..];
      forall i | 0 <= i < 4 {
        d[i] := PlaneEntry(a[i], -a[i + 8], s, c);
      }
      forall i | 8 <= i < 12 {
        d[i] := PlaneEntry(a[i], a[i - 8], s, c);
      }
      RotatedYEntries(a, d[..], s, c);
    }

    /** `rotateZ(rad)`: rewrites the first and second groups of four. */
    method RotateZ(rad: real, sin: real -> real, cos: real -> real)
      requires Valid()
      modifies d
      ensures d[..] == RotatedZ(old(d[..]), sin(rad), cos(rad))
    {
      var s, c, a := sin(rad), cos(rad), d[..];
      forall i | 0 <= i < 4 {
        d[i] := PlaneEntry(a[i], a[i + 4], s, c);
      }
      forall i | 4 <= i < 8 {
        d[i] := PlaneEntry(a[i], -a[i - 4], s, c);
      }
      RotatedZEntries(a, d[..], s, c);
    }

    /** `rotateXYZ(x, y, z)`: rotateX, then rotateY, then rotateZ. */
    method RotateXYZ(x: real, y: real, z: real, sin: real -> real, cos: real -> real)
      requires Valid()
      modifies d
      ensures d[..] == RotatedZ(RotatedY(RotatedX(old(d[..]), sin(x), cos(x)), sin(y), cos(y)), sin(z), cos(z))
    {
      RotateX(x, sin, cos);
      RotateY(y, sin, cos);
      RotateZ(z, sin, cos);
    }

    /** `invert()`: the cofactors over the determinant, written back into `d`. On
      * a zero determinant `assert(false)` aborts a debug build; with assertions
      * compiled out the method returns and `d` keeps its entries, which is what
      * is modelled here. The cofactor products appear in a different order from
      * `Inverse` in Matrix4.cc, which does not matter over the reals. */
    method Invert()
      requires Valid()
      modifies d
      ensures Det(old(d[..])) == 0.0 ==> d[..] == old(d[..])
      ensures Det(old(d[..])) != 0.0 ==> d[..] == InverseEntries(old(d[..]))
    {
      var a := d[..];
      var det := Det(a);
      if det == 0.0 {
        return;
      }
      var detInv := 1.0 / det;
      forall i | 0 <= i < 16 {
        d[i] := Cofactor(a, i) * detInv;
      }
      assert forall i :: 0 <= i < 16 ==> d[i] == InverseEntries(a)[i];
    }
  }

  /** `transform(v, mat)`: the same `(...) || 1.0` as `Transform` in Matrix4.h, so
    * the point is never divided by its homogeneous coordinate; on an affine
    * matrix that coincides with the intended division. */
  function TransformVector(v: Vector3, mat: seq<real>): (r: Vector3)
    requires |mat| == 16
    ensures r == Add(TransformNormalVector(v, mat), Column(mat, 3))
    ensures Affine(mat) ==> r == TransformPoint(mat, v)
  {
    var w := if mat[3] * v.x + mat[7] * v.y + mat[11] * v.z + mat[15] != 0.0 || 1.0 != 0.0 then 1.0 else 0.0;
    Vector3((mat[0] * v.x + mat[4] * v.y + mat[8] * v.z + mat[12]) / w,
            (mat[1] * v.x + mat[5] * v.y + mat[9] * v.z + mat[13]) / w,
            (mat[2] * v.x + mat[6] * v.y + mat[10] * v.z + mat[14]) / w)
  }

  /** `transformNormal(v, mat)`: the linear part; the translation column and the
    * bottom row are not read. */
  function TransformNormalVector(v: Vector3, mat: seq<real>): (r: Vector3)
    requires |mat| == 16
    ensures r == TransformNormal(mat, v)
    ensures forall n :: |n| == 16 && n[..12] == mat[..12] ==> r == TransformNormal(n, v)
  {
    Vector3(mat[0] * v.x + mat[4] * v.y + mat[8] * v.z,
            mat[1] * v.x + mat[5] * v.y + mat[9] * v.z,
            mat[2] * v.x + mat[6] * v.y + mat[10] * v.z)
  }
}
