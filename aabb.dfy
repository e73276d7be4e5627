/** src/core/AABB.h: axis-aligned bounding boxes of the C++ rewrite. Every box is
  * built by the two-point constructor, which sorts each axis, except the default
  * (empty) box. */
module CoreAABB {
  import opened Numerics
  import opened CoreMath
  import opened CoreVector3

  datatype AABB = AABB(minp: Vector3, maxp: Vector3)

  /** `minp <= maxp` on every axis. */
  predicate Sorted(b: AABB) {
    b.minp.x <= b.maxp.x && b.minp.y <= b.maxp.y && b.minp.z <= b.maxp.z
  }

  /** A point whose coordinates are finite floats. */
  predicate InRange(p: Vector3) {
    -MaxFloat <= p.x <= MaxFloat && -MaxFloat <= p.y <= MaxFloat && -MaxFloat <= p.z <= MaxFloat
  }

  /** `Inside(b, p)`: closed membership on every axis. */
  predicate Inside(b: AABB, p: Vector3) {
    b.minp.x <= p.x <= b.maxp.x && b.minp.y <= p.y <= b.maxp.y && b.minp.z <= p.z <= b.maxp.z
  }

  /** Box `c` contains box `b`. */
  predicate Contains(c: AABB, b: AABB) {
    c.minp.x <= b.minp.x && c.minp.y <= b.minp.y && c.minp.z <= b.minp.z
    && b.maxp.x <= c.maxp.x && b.maxp.y <= c.maxp.y && b.maxp.z <= c.maxp.z
  }

  /** `AABB()`: +MaxFloat below and -MaxFloat above on every axis, a box that
    * contains no point. */
  function Empty(): (b: AABB)
    ensures b.minp == Vector3(MaxFloat, MaxFloat, MaxFloat)
    ensures b.maxp == Vector3(-MaxFloat, -MaxFloat, -MaxFloat)
    ensures forall p :: !Inside(b, p)
  {
    AABB(Vector3(MaxFloat, MaxFloat, MaxFloat), Vector3(-MaxFloat, -MaxFloat, -MaxFloat))
  }

  /** `AABB(p1, p2)` sorts each axis: the result is the smallest sorted box that
    * holds both points, whatever their order. */
  function FromPoints(p1: Vector3, p2: Vector3): (b: AABB)
    ensures Sorted(b) && Inside(b, p1) && Inside(b, p2)
    ensures forall c :: Inside(c, p1) && Inside(c, p2) ==> Contains(c, b)
  {
    AABB(CoreVector3.Min(p1, p2), CoreVector3.Max(p1, p2))
  }

  /** `operator[]`: DCHECKs i == 0 || i == 1; 0 gives minp and 1 gives maxp. */
  function Bound(b: AABB, i: int): Vector3
    requires i == 0 || i == 1
  {
    if i == 0 then b.minp else b.maxp
  }

  /** `Corner(c)`: x from `[c & 1]`, y from `[(c & 2) ? 1 : 0]`, z from
    * `[(c & 4) ? 1 : 0]`; so bit k of `c` picks `maxp` on axis k. */
  function Corner(b: AABB, c: int): (r: Vector3)
    requires 0 <= c < 8
    ensures r.x == (if c % 2 == 1 then b.maxp.x else b.minp.x)
    ensures r.y == (if (c / 2) % 2 == 1 then b.maxp.y else b.minp.y)
    ensures r.z == (if (c / 4) % 2 == 1 then b.maxp.z else b.minp.z)
  {
    var bits := c as bv8;
    assert c == 0 || c == 1 || c == 2 || c == 3 || c == 4 || c == 5 || c == 6 || c == 7;
    Vector3(Bound(b, (bits & 1) as int).x,
            Bound(b, if bits & 2 != 0 then 1 else 0).y,
            Bound(b, if bits & 4 != 0 then 1 else 0).z)
  }

  lemma CornerExtremes(b: AABB)
    ensures Corner(b, 0) == b.minp
    ensures Corner(b, 7) == b.maxp
  {
  }

  /** Every corner of a sorted box is inside it. */
  lemma CornersInside(b: AABB, c: int)
    requires Sorted(b) && 0 <= c < 8
    ensures Inside(b, Corner(b, c))
  {
  }

  /** `Diagonal()` is `maxp - minp`. */
  function Diagonal(b: AABB): (d: Vector3)
    ensures Sorted(b) <==> 0.0 <= d.x && 0.0 <= d.y && 0.0 <= d.z
    ensures Add(b.minp, d) == b.maxp
  {
    Sub(b.maxp, b.minp)
  }

  function SurfaceArea(b: AABB): (r: real)
    ensures Sorted(b) ==> 0.0 <= r
  {
    var d := Diagonal(b);
    if Sorted(b) then
      assert 0.0 <= d.x * d.y && 0.0 <= d.x * d.z && 0.0 <= d.y * d.z;
      2.0 * (d.x * d.y + d.x * d.z + d.y * d.z)
    else
      2.0 * (d.x * d.y + d.x * d.z + d.y * d.z)
  }

  function Volume(b: AABB): (r: real)
    ensures Sorted(b) ==> 0.0 <= r
  {
    var d := Diagonal(b);
    if Sorted(b) then
      assert 0.0 <= d.x * d.y;
      assert 0.0 <= d.x * d.y * d.z;
      d.x * d.y * d.z
    else
      d.x * d.y * d.z
  }

  /** `LongestDimension()`: the axis of a largest diagonal component; 0 only when x
    * is strictly the longest, and ties between y and z go to z. */
  function LongestDimension(b: AABB): (r: int)
    ensures 0 <= r <= 2
    ensures forall j :: 0 <= j <= 2 ==> Get(Diagonal(b), j) <= Get(Diagonal(b), r)
    ensures r == 0 <==> Diagonal(b).x > Diagonal(b).y && Diagonal(b).x > Diagonal(b).z
  {
    var d := Diagonal(b);
    if d.x > d.y && d.x > d.z then 0
    else if d.y > d.z then 1
    else 2
  }

  /** `Offset(p)`: the position of `p` relative to the box. An axis with positive
    * extent is scaled to [0, 1] for inside points, and `minp + offset * extent`
    * gives the coordinate back; an axis of zero extent stays `p - minp`. */
  function Offset(b: AABB, p: Vector3): (r: Vector3)
    ensures b.minp.x < b.maxp.x ==> b.minp.x + r.x * (b.maxp.x - b.minp.x) == p.x
    ensures b.minp.y < b.maxp.y ==> b.minp.y + r.y * (b.maxp.y - b.minp.y) == p.y
    ensures b.minp.z < b.maxp.z ==> b.minp.z + r.z * (b.maxp.z - b.minp.z) == p.z
    ensures b.minp.x < b.maxp.x && b.minp.x <= p.x <= b.maxp.x ==> 0.0 <= r.x <= 1.0
    ensures b.minp.y < b.maxp.y && b.minp.y <= p.y <= b.maxp.y ==> 0.0 <= r.y <= 1.0
    ensures b.minp.z < b.maxp.z && b.minp.z <= p.z <= b.maxp.z ==> 0.0 <= r.z <= 1.0
    ensures !(b.minp.x < b.maxp.x) ==> r.x == p.x - b.minp.x
    ensures !(b.minp.y < b.maxp.y) ==> r.y == p.y - b.minp.y
    ensures !(b.minp.z < b.maxp.z) ==> r.z == p.z - b.minp.z
  {
    var ret := Sub(p, b.minp);
    var x := if b.maxp.x > b.minp.x then OffsetAxis(ret.x, b.maxp.x - b.minp.x) else ret.x;
    var y := if b.maxp.y > b.minp.y then OffsetAxis(ret.y, b.maxp.y - b.minp.y) else ret.y;
    var z := if b.maxp.z > b.minp.z then OffsetAxis(ret.z, b.maxp.z - b.minp.z) else ret.z;
    Vector3(x, y, z)
  }

  /** One axis of `Offset`: `ret /= extent`. */
  function OffsetAxis(d: real, extent: real): (r: real)
    requires 0.0 < extent
    ensures r * extent == d
    ensures 0.0 <= d <= extent ==> 0.0 <= r <= 1.0
  {
    var r := d / extent;
    if 0.0 <= d <= extent then
      assert r <= 1.0 by {
        assert r * extent <= 1.0 * extent;
      }
      r
    else
      r
  }

  /** `Union(b, p)`: the box re-sorted around `b` and `p`. It holds `p` and every
    * point of `b`; grown from the empty box it is exactly the point box `[p, p]`,
    * and grown from a sorted box it is the smallest box holding both. */
  function UnionPoint(b: AABB, p: Vector3): (r: AABB)
    ensures Sorted(r) && Inside(r, p)
    ensures forall q :: Inside(b, q) ==> Inside(r, q)
    ensures b == Empty() && InRange(p) ==> r == AABB(p, p)
    ensures Sorted(b) ==> forall c :: Contains(c, b) && Inside(c, p) ==> Contains(c, r)
  {
    FromPoints(Vector3(Numerics.Min(b.minp.x, p.x), Numerics.Min(b.minp.y, p.y), Numerics.Min(b.minp.z, p.z)),
               Vector3(Numerics.Max(b.maxp.x, p.x), Numerics.Max(b.maxp.y, p.y), Numerics.Max(b.maxp.z, p.z)))
  }

  /** Box `c` holds every point of `ps`. */
  predicate HoldsAll(c: AABB, ps: seq<Vector3>) {
    forall j :: 0 <= j < |ps| ==> Inside(c, ps[j])
  }

  /** Box `r` lies within every box that holds all of `ps`. */
  ghost predicate Tightest(r: AABB, ps: seq<Vector3>) {
    forall c :: HoldsAll(c, ps) ==> Contains(c, r)
  }

  /** Growing a box point by point from the empty box: each step keeps every point
    * seen so far, and (for finite points) the smallest box holding them. */
  lemma {:induction false} UnionPointStep(b: AABB, ps: seq<Vector3>, p: Vector3)
    requires |ps| == 0 ==> b == Empty()
    requires 0 < |ps| ==> Sorted(b)
    requires HoldsAll(b, ps)
    ensures HoldsAll(UnionPoint(b, p), ps + [p])
    ensures InRange(p) && (0 < |ps| ==> Tightest(b, ps)) ==> Tightest(UnionPoint(b, p), ps + [p])
  {
    var r := UnionPoint(b, p);
    forall j | 0 <= j < |ps| + 1
      ensures Inside(r, (ps + [p])[j])
    {
      if j < |ps| {
        assert Inside(b, ps[j]);
      }
    }
    if InRange(p) && (0 < |ps| ==> Tightest(b, ps)) {
      forall c | HoldsAll(c, ps + [p])
        ensures Contains(c, r)
      {
        assert Inside(c, (ps + [p])[|ps|]);
        if 0 < |ps| {
          forall j | 0 <= j < |ps|
            ensures Inside(c, ps[j])
          {
            assert Inside(c, (ps + [p])[j]);
          }
        }
      }
    }
  }

  /** `Union(a, b)`: componentwise min of the lows and max of the highs, passed
    * through the sorting constructor. It holds every point of both boxes. */
  function Union(a: AABB, b: AABB): (r: AABB)
    ensures Sorted(r)
    ensures forall q :: Inside(a, q) || Inside(b, q) ==> Inside(r, q)
  {
    FromPoints(CoreVector3.Min(a.minp, b.minp), CoreVector3.Max(a.maxp, b.maxp))
  }

  /** The empty box is a unit of `Union` on sorted boxes of finite floats. */
  lemma UnionWithEmpty(a: AABB)
    requires Sorted(a) && InRange(a.minp) && InRange(a.maxp)
    ensures Union(a, Empty()) == a
    ensures Union(Empty(), a) == a
  {
  }

  /** The defect: the union of two empty boxes is re-sorted into the box that spans
    * all finite floats, not the empty box. */
  lemma UnionOfEmptiesIsWholeSpace()
    ensures Union(Empty(), Empty()) ==
      AABB(Vector3(-MaxFloat, -MaxFloat, -MaxFloat), Vector3(MaxFloat, MaxFloat, MaxFloat))
    ensures Union(Empty(), Empty()) != Empty()
    ensures Inside(Union(Empty(), Empty()), Zero)
  {
  }

  /** `Union(a, b)` as evidently intended: the same min/max, without re-sorting. */
  function UnionKeepingEmpty(a: AABB, b: AABB): (r: AABB)
    ensures forall q :: Inside(a, q) || Inside(b, q) ==> Inside(r, q)
    ensures Sorted(a) || Sorted(b) ==> r == Union(a, b)
  {
    AABB(CoreVector3.Min(a.minp, b.minp), CoreVector3.Max(a.maxp, b.maxp))
  }

  /** The intended union keeps the empty box as a unit for every box of finite floats,
    * the empty box included. */
  lemma UnionKeepingEmptyUnit(a: AABB)
    requires InRange(a.minp) && InRange(a.maxp)
    ensures UnionKeepingEmpty(a, Empty()) == a
    ensures UnionKeepingEmpty(Empty(), a) == a
    ensures UnionKeepingEmpty(Empty(), Empty()) == Empty()
  {
  }

  /** `Intersect(a, b)`: componentwise max of the lows and min of the highs, passed
    * through the sorting constructor. For overlapping sorted boxes it holds exactly
    * the common points. */
  function Intersect(a: AABB, b: AABB): (r: AABB)
    ensures Sorted(r)
    ensures Sorted(a) && Sorted(b) && Overlaps(a, b) ==>
      forall q :: Inside(r, q) <==> Inside(a, q) && Inside(b, q)
  {
    FromPoints(CoreVector3.Max(a.minp, b.minp), CoreVector3.Min(a.maxp, b.maxp))
  }

  /** Disjoint boxes do not intersect to an empty box: the re-sort produces the gap
    * between them, which holds points of neither. */
  lemma IntersectOfDisjointIsNotEmpty()
    ensures var a, b := AABB(Zero, Vector3(1.0, 1.0, 1.0)), AABB(Vector3(2.0, 2.0, 2.0), Vector3(3.0, 3.0, 3.0));
      !Overlaps(a, b) && Intersect(a, b) == AABB(Vector3(1.0, 1.0, 1.0), Vector3(2.0, 2.0, 2.0))
      && Inside(Intersect(a, b), Vector3(1.5, 1.5, 1.5))
      && !Inside(a, Vector3(1.5, 1.5, 1.5)) && !Inside(b, Vector3(1.5, 1.5, 1.5))
  {
  }

  /** `Overlaps(a, b)`: the closed intervals meet on all three axes. */
  predicate Overlaps(a: AABB, b: AABB) {
    (a.maxp.x >= b.minp.x && a.minp.x <= b.maxp.x)
    && (a.maxp.y >= b.minp.y && a.minp.y <= b.maxp.y)
    && (a.maxp.z >= b.minp.z && a.minp.z <= b.maxp.z)
  }

  lemma OverlapsSymmetric(a: AABB, b: AABB)
    ensures Overlaps(a, b) == Overlaps(b, a)
  {
  }

  /** Two sorted boxes overlap exactly when they share a point. */
  lemma OverlapsIffCommonPoint(a: AABB, b: AABB)
    requires Sorted(a) && Sorted(b)
    ensures Overlaps(a, b) <==> exists p :: Inside(a, p) && Inside(b, p)
  {
    if Overlaps(a, b) {
      var p := CoreVector3.Max(a.minp, b.minp);
      assert Inside(a, p) && Inside(b, p);
    }
  }

  /** `Expand(b, delta)` moves every face out by `delta` and re-sorts; for
    * `delta >= 0` it contains the original box. */
  function Expand(b: AABB, delta: real): (r: AABB)
    ensures Sorted(r)
    ensures 0.0 <= delta && Sorted(b) ==> Contains(r, b)
    ensures 0.0 <= delta && Sorted(b) ==> forall q :: Inside(b, q) ==> Inside(r, q)
  {
    var d := Vector3(delta, delta, delta);
    FromPoints(Sub(b.minp, d), Add(b.maxp, d))
  }
}
