/** src/shapes/Sphere.cc: a sphere of a given radius. `Intersect` places its
  * centre at (0, 0, -1) while `Bound` surrounds the origin. */
module ShapesSphere {
  import opened Wrappers
  import opened Numerics
  import opened CoreMath
  import opened CoreVector3
  import opened CoreAABB
  import opened CoreRay
  import opened CoreHit

  const Centre: Vector3 := Vector3(0.0, 0.0, -1.0)

  /** `Bound()`: the box from (-r, -r, -r) to (r, r, r), sorted by the two-point
    * constructor, so a negative radius gives the same box as its magnitude. */
  function Bound(radius: real): (b: AABB)
    ensures Sorted(b)
    ensures 0.0 <= radius ==> b == AABB(Vector3(-radius, -radius, -radius), Vector3(radius, radius, radius))
    ensures b == AABB(Vector3(-Abs(radius), -Abs(radius), -Abs(radius)), Vector3(Abs(radius), Abs(radius), Abs(radius)))
  {
    FromPoints(Vector3(-radius, -radius, -radius), Vector3(radius, radius, radius))
  }

  /** The lowest point of the sphere `Intersect` intersects, (0, 0, -1 - |r|), lies on
    * that sphere but outside `Bound()`, for every radius. */
  lemma BoundMissesSphere(radius: real)
    ensures LenSq(Sub(Vector3(0.0, 0.0, -1.0 - Abs(radius)), Centre)) == radius * radius
    ensures !Inside(Bound(radius), Vector3(0.0, 0.0, -1.0 - Abs(radius)))
  {
  }

  function Abs(a: real): (r: real)
    ensures 0.0 <= r && r * r == a * a
  {
    if a < 0.0 then -a else a
  }

  /** The box around the sphere `Intersect` actually intersects. */
  function CentredBound(radius: real): (b: AABB)
    ensures Sorted(b)
    ensures Inside(b, Centre)
  {
    var e := Vector3(radius, radius, radius);
    FromPoints(Sub(Centre, e), Add(Centre, e))
  }

  /** Every point of the intersected sphere lies in `CentredBound`. */
  lemma CentredBoundContainsSphere(radius: real, p: Vector3)
    requires LenSq(Sub(p, Centre)) == radius * radius
    ensures Inside(CentredBound(radius), p)
  {
    var d := Sub(p, Centre);
    CoordinateWithin(d.x, d.y * d.y + d.z * d.z, radius);
    CoordinateWithin(d.y, d.x * d.x + d.z * d.z, radius);
    CoordinateWithin(d.z, d.x * d.x + d.y * d.y, radius);
  }

  /** A coordinate whose square is at most `r * r` lies within `|r|` of zero. */
  lemma CoordinateWithin(a: real, rest: real, r: real)
    requires 0.0 <= rest && a * a + rest == r * r
    ensures -Abs(r) <= a <= Abs(r)
  {
    SquaresOrdered(Abs(a), Abs(r));
  }

  /** The quadratic `a t^2 + 2 b t + c` of `Intersect` and its discriminant
    * `b^2 - a c`. */
  function QuadA(r: Ray): real { Dot(r.direction, r.direction) }
  function QuadB(r: Ray): real { Dot(Sub(r.origin, Centre), r.direction) }
  function QuadC(radius: real, r: Ray): real { Dot(Sub(r.origin, Centre), Sub(r.origin, Centre)) - radius * radius }

  function Discriminant(radius: real, r: Ray): (disc: real)
    ensures 0.0 < disc ==> 0.0 < QuadA(r)
    ensures 0.0 < disc ==> radius != 0.0
  {
    var disc := QuadB(r) * QuadB(r) - QuadA(r) * QuadC(radius, r);
    if 0.0 < disc then
      PositiveDiscriminant(radius, r);
      disc
    else
      disc
  }

  /** Lagrange's identity: `|u|^2 |v|^2 - (u.v)^2 == |u x v|^2`. */
  lemma Lagrange(u: Vector3, v: Vector3)
    ensures Dot(u, u) * Dot(v, v) - Dot(u, v) * Dot(u, v) == LenSq(Cross(u, v))
  {
  }

  /** A positive discriminant needs a non-zero direction (else `b` and `a` vanish)
    * and a non-zero radius (else `b^2 <= a c` by Lagrange's identity). */
  lemma PositiveDiscriminant(radius: real, r: Ray)
    requires 0.0 < QuadB(r) * QuadB(r) - QuadA(r) * QuadC(radius, r)
    ensures 0.0 < QuadA(r) && radius != 0.0
  {
    DiscriminantFacts(radius, r, QuadA(r), QuadB(r), QuadC(radius, r));
  }

  lemma DiscriminantFacts(radius: real, r: Ray, a: real, b: real, c: real)
    requires a == QuadA(r) && b == QuadB(r) && c == QuadC(radius, r)
    requires 0.0 < b * b - a * c
    ensures 0.0 < a && radius != 0.0
  {
    var ro := Sub(r.origin, Centre);
    if a == 0.0 {
      ZeroDirection(r);
      NotPositive(b, a, c, 0.0);
      assert false;
    }
    if radius == 0.0 {
      var l := LenSq(Cross(r.direction, ro));
      assert c == Dot(ro, ro);
      DotSymmetric(ro, r.direction);
      Lagrange(r.direction, ro);
      NotPositive(b, a, c, l);
      assert false;
    }
  }

  /** A zero `a` means a zero direction, and then `b` is zero too. */
  lemma ZeroDirection(r: Ray)
    requires QuadA(r) == 0.0
    ensures QuadB(r) == 0.0
  {
    assert LenSq(r.direction) == 0.0;
    assert r.direction == Zero;
  }

  lemma NotPositive(b: real, a: real, c: real, l: real)
    requires a * c - b * b == l && 0.0 <= l
    ensures b * b - a * c <= 0.0
  {
  }

  /** The two roots, nearer first. */
  function NearRoot(radius: real, r: Ray, sqrt: real -> real): real
    requires IsSqrt(sqrt) && 0.0 < Discriminant(radius, r)
  {
    (-QuadB(r) - sqrt(Discriminant(radius, r))) / QuadA(r)
  }

  function FarRoot(radius: real, r: Ray, sqrt: real -> real): real
    requires IsSqrt(sqrt) && 0.0 < Discriminant(radius, r)
  {
    (-QuadB(r) + sqrt(Discriminant(radius, r))) / QuadA(r)
  }

  lemma RootsOrdered(radius: real, r: Ray, sqrt: real -> real)
    requires IsSqrt(sqrt) && 0.0 < Discriminant(radius, r)
    ensures NearRoot(radius, r, sqrt) <= FarRoot(radius, r, sqrt)
  {
    var a, b, s := QuadA(r), QuadB(r), sqrt(Discriminant(radius, r));
    assert 0.0 <= s && 0.0 < a;
    DivideOrdered(-b - s, -b + s, a);
  }

  lemma DivideOrdered(p: real, q: real, a: real)
    requires p <= q && 0.0 < a
    ensures p / a <= q / a
  {
  }

  /** The window test of `Intersect`: strictly between `minT` and `maxT`. */
  predicate InWindow(r: Ray, t: real) {
    r.minT < t < r.maxT
  }

  /** The hit reported at parameter `t`: the point on the ray and the vector from
    * the centre to it over the radius. */
  function HitAt(radius: real, r: Ray, t: real): Hit
    requires radius != 0.0
  {
    var p := PointAt(r, t);
    Hit(t, p, Div(Sub(p, Centre), radius))
  }

  /** `Intersect(r)`: no hit unless the discriminant is positive, so a tangent
    * ray misses; otherwise the nearest root strictly inside the ray's window. */
  function Intersect(radius: real, r: Ray, sqrt: real -> real): (h: Option<Hit>)
    requires IsSqrt(sqrt)
    ensures Discriminant(radius, r) <= 0.0 ==> h == None
    ensures h.Some? ==> 0.0 < Discriminant(radius, r) && InWindow(r, h.value.t) && h == Some(HitAt(radius, r, h.value.t))
    ensures h.Some? ==> h.value.t == NearRoot(radius, r, sqrt) || h.value.t == FarRoot(radius, r, sqrt)
    ensures h.Some? && InWindow(r, NearRoot(radius, r, sqrt)) ==> h.value.t <= NearRoot(radius, r, sqrt)
    ensures h.Some? && InWindow(r, FarRoot(radius, r, sqrt)) ==> h.value.t <= FarRoot(radius, r, sqrt)
    ensures 0.0 < Discriminant(radius, r) && h.None? ==>
      !InWindow(r, NearRoot(radius, r, sqrt)) && !InWindow(r, FarRoot(radius, r, sqrt))
  {
    var disc := Discriminant(radius, r);
    if disc > 0.0 then
      RootsOrdered(radius, r, sqrt);
      var t := NearRoot(radius, r, sqrt);
      if t > r.minT && t < r.maxT then Some(HitAt(radius, r, t))
      else
        var t := FarRoot(radius, r, sqrt);
        if t > r.minT && t < r.maxT then Some(HitAt(radius, r, t))
        else None
    else None
  }

  /** `Area()`: `4 * PI * r * r`, which is less than the surface of the cube
    * `Bound()` (`24 * r * r`). */
  function Area(radius: real): (a: real)
    ensures 0.0 <= a
    ensures a == 0.0 <==> radius == 0.0
    ensures a <= SurfaceArea(Bound(radius))
  {
    var s := radius * radius;
    AreaFacts(radius, s, 4.0 * Pi * s);
    4.0 * Pi * s
  }

  lemma AreaFacts(radius: real, s: real, a: real)
    requires s == radius * radius && a == 4.0 * Pi * s
    ensures 0.0 <= a && (a == 0.0 <==> radius == 0.0) && a <= SurfaceArea(Bound(radius))
  {
    SquareFacts(radius, s);
    var k := 4.0 * Pi;
    assert 12.0 < k < 13.0;
    ScaledSquare(k, s, a);
    BoundArea(radius);
  }

  lemma SquareFacts(radius: real, s: real)
    requires s == radius * radius
    ensures 0.0 <= s && (s == 0.0 <==> radius == 0.0)
  {
    assert s == Abs(radius) * Abs(radius);
    if s == 0.0 {
      SquareZero(radius);
    }
  }

  lemma ScaledSquare(k: real, s: real, a: real)
    requires 12.0 < k < 13.0 && 0.0 <= s && a == k * s
    ensures 0.0 <= a && (a == 0.0 <==> s == 0.0) && a <= 24.0 * s
  {
    assert 24.0 * s - a == (24.0 - k) * s;
    if s > 0.0 {
      assert k * s > 0.0;
      assert (24.0 - k) * s > 0.0;
    }
  }

  lemma BoundArea(radius: real)
    ensures SurfaceArea(Bound(radius)) == 24.0 * (radius * radius)
  {
    var d := Diagonal(Bound(radius));
    assert d == Vector3(2.0 * Abs(radius), 2.0 * Abs(radius), 2.0 * Abs(radius));
    assert d.x * d.y == 4.0 * (radius * radius);
  }
}
