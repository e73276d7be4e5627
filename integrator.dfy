/** src/core/Integrator.cc: `SamplerIntegrator`, which colours a pixel by whether
  * the camera ray hits the scene and fills a `FilmTile` one pixel at a time.
  * The scene is a parameter (`scene(r)` is what `scene->root->Intersect(r)`
  * returns). `color` calls a free `Normalize`, which Vector3.h does not declare;
  * it is modelled as `unit`, the free function Vector3.h does declare. */
module CoreIntegrator {
  import opened Wrappers
  import opened Numerics
  import opened CoreMath
  import opened CoreVector3
  import opened CoreRay
  import opened CoreHit
  import opened CoreFilm

  /** The image size `Render` assumes. */
  const ImageWidth: int := 200
  const ImageHeight: int := 100

  const One: Vector3 := Vector3(1.0, 1.0, 1.0)
  const Sky: Vector3 := Vector3(0.5, 0.7, 1.0)
  const SphereCentre: Vector3 := Vector3(0.0, 0.0, -1.0)

  /** `unit` aborts on a zero vector, so a hit exactly at the sphere centre would
    * abort `color`; the scene must not report one. */
  ghost predicate HitsOffCentre(scene: Ray -> Option<Hit>) {
    forall r :: scene(r).Some? ==> scene(r).value.p != SphereCentre
  }

  /** A component of a unit vector lies in [-1, 1]. */
  lemma UnitComponents(n: Vector3)
    requires LenSq(n) == 1.0
    ensures -1.0 <= n.x <= 1.0 && -1.0 <= n.y <= 1.0 && -1.0 <= n.z <= 1.0
  {
    SquareAtMostOne(n.x, n.y * n.y + n.z * n.z);
    SquareAtMostOne(n.y, n.x * n.x + n.z * n.z);
    SquareAtMostOne(n.z, n.x * n.x + n.y * n.y);
  }

  lemma SquareAtMostOne(a: real, rest: real)
    requires 0.0 <= rest && a * a + rest == 1.0
    ensures -1.0 <= a <= 1.0
  {
    var m := if a < 0.0 then -a else a;
    assert m * m == a * a;
    SquaresOrdered(m, 1.0);
  }

  /** `color(r)`. On a hit, the unit vector from the sphere centre to the hit
    * point mapped from [-1, 1] to [0, 1]; twice the colour minus one is that unit
    * vector again. On a miss, a blend of white and sky blue by
    * `t = 0.5 * (ud.y + 1)`: blue is 1, and red and green lie on the segment
    * between white and (0.5, 0.7). */
  function Color(hit: Option<Hit>, r: Ray, sqrt: real -> real): (c: Vector3)
    requires IsSqrt(sqrt)
    requires hit.Some? ==> hit.value.p != SphereCentre
    requires hit.None? ==> r.direction != Zero
    ensures 0.0 <= c.x <= 1.0 && 0.0 <= c.y <= 1.0 && 0.0 <= c.z <= 1.0
    ensures hit.Some? ==> LenSq(Sub(Scale(c, 2.0), One)) == 1.0
    ensures hit.None? ==> c.z == 1.0 && 0.5 <= c.x && 0.7 <= c.y && 0.3 * (1.0 - c.x) == 0.5 * (1.0 - c.y)
  {
    match hit
    case Some(h) =>
      var d := Sub(h.p, SphereCentre);
      assert d != Zero;
      assert Length(d, sqrt) != 0.0;
      var n := Unit(d, sqrt);
      UnitComponents(n);
      var c := Scale(Add(n, One), 0.5);
      assert Sub(Scale(c, 2.0), One) == n;
      c
    case None =>
      var ud := Unit(r.direction, sqrt);
      UnitComponents(ud);
      var t := SkyBlend(ud.y);
      Add(Scale(One, 1.0 - t), Scale(Sky, t))
  }

  /** `t = 0.5 * (ud.y + 1)`: 0 for a ray straight down, 1 straight up. */
  function SkyBlend(y: real): (t: real)
    requires -1.0 <= y <= 1.0
    ensures 0.0 <= t <= 1.0
    ensures y == -1.0 ==> t == 0.0
    ensures y == 1.0 ==> t == 1.0
  {
    0.5 * (y + 1.0)
  }

  /** Rays that point further up get bluer: the blend is monotone in `ud.y`. */
  lemma SkyBluerUpward(y1: real, y2: real)
    requires -1.0 <= y1 <= y2 <= 1.0
    ensures SkyBlend(y1) <= SkyBlend(y2)
    ensures Add(Scale(One, 1.0 - SkyBlend(y2)), Scale(Sky, SkyBlend(y2))).x
         <= Add(Scale(One, 1.0 - SkyBlend(y1)), Scale(Sky, SkyBlend(y1))).x
  {
  }

  /** The camera ray through film pixel `(x, y)`: from the origin towards
    * `llc + u * hor + v * ver` with `u = x / 200`, `v = y / 100`. Ray.h gives a ray
    * no parametric window; the model gives it (0, MaxFloat). */
  function CameraRay(x: int, y: int): (r: Ray)
    ensures r.origin == Zero && r.direction.z == -1.0
    ensures r.direction.x == -2.0 + 4.0 * (x as real / ImageWidth as real)
    ensures r.direction.y == -1.0 + 2.0 * (y as real / ImageHeight as real)
  {
    var u := x as real / ImageWidth as real;
    var v := y as real / ImageHeight as real;
    var llc, hor, ver := Vector3(-2.0, -1.0, -1.0), Vector3(4.0, 0.0, 0.0), Vector3(0.0, 2.0, 0.0);
    Ray(Zero, Add(Add(llc, Scale(hor, u)), Scale(ver, v)), 0.0, MaxFloat)
  }

  /** Tile pixel `(i, j)` of a `height` rows tile at `(x0, y0)`: film pixel
    * `(x0 + i, 100 - y0 - height + j)`. */
  function PixelColor(scene: Ray -> Option<Hit>, sqrt: real -> real, x0: int, y0: int, height: int, i: int, j: int): Vector3
    requires IsSqrt(sqrt) && HitsOffCentre(scene)
  {
    var r := CameraRay(x0 + i, ImageHeight - y0 - height + j);
    Color(scene(r), r, sqrt)
  }

  /** The tile's data after `Render`'s loops have finished columns `0..cols` and
    * the first `rows` pixels of column `cols`; every other pixel is still the
    * zero vector the tile was created with. */
  function RenderedUpTo(scene: Ray -> Option<Hit>, sqrt: real -> real, x0: int, y0: int, width: int, height: int,
                        cols: int, rows: int): (r: seq<Vector3>)
    requires IsSqrt(sqrt) && HitsOffCentre(scene) && 0 <= width && 0 <= height
    ensures |r| == width * height
  {
    if width == 0 then []
    else
      seq(width * height, k requires 0 <= k < width * height =>
        if k % width < cols || (k % width == cols && k / width < rows)
        then PixelColor(scene, sqrt, x0, y0, height, k % width, k / width)
        else Zero)
  }

  /** The tile `Render` returns: pixel `k` is tile pixel `(k % width, k / width)`. */
  function Rendered(scene: Ray -> Option<Hit>, sqrt: real -> real, x0: int, y0: int, width: int, height: int): (r: seq<Vector3>)
    requires IsSqrt(sqrt) && HitsOffCentre(scene) && 0 <= width && 0 <= height
    ensures |r| == width * height
  {
    RenderedUpTo(scene, sqrt, x0, y0, width, height, width, 0)
  }

  /** `Render(x0, y0, width, height)`: a new tile at `(x0, y0)` whose every pixel
    * has been written, column by column. */
  method Render(scene: Ray -> Option<Hit>, sqrt: real -> real, x0: int, y0: int, width: int, height: int)
    returns (tile: FilmTile)
    requires IsSqrt(sqrt) && HitsOffCentre(scene) && 0 <= width && 0 <= height
    ensures fresh(tile) && tile.Valid()
    ensures tile.x == x0 && tile.y == y0 && tile.width == width && tile.height == height
    ensures tile.data == Rendered(scene, sqrt, x0, y0, width, height)
  {
    tile := new FilmTile(x0, y0, width, height);
    for i := 0 to width
      invariant tile.Valid() && tile.x == x0 && tile.y == y0 && tile.width == width && tile.height == height
      invariant tile.data == RenderedUpTo(scene, sqrt, x0, y0, width, height, i, 0)
    {
      for j := 0 to height
        invariant tile.Valid() && tile.x == x0 && tile.y == y0 && tile.width == width && tile.height == height
        invariant tile.data == RenderedUpTo(scene, sqrt, x0, y0, width, height, i, j)
      {
        var x := x0 + i;
        var y := ImageHeight - y0 - height + j;
        var r := CameraRay(x, y);
        var c := Color(scene(r), r, sqrt);
        assert c == PixelColor(scene, sqrt, x0, y0, height, i, j);
        RenderStep(scene, sqrt, x0, y0, width, height, i, j);
        assert TileIndex(tile.Image(), i, j) == i + j * width;
        tile.WritePixel(i, j, c);
      }
      ColumnDone(scene, sqrt, x0, y0, width, height, i);
    }
  }

  /** Writing tile pixel `(i, j)` is one more step of the loops. */
  lemma RenderStep(scene: Ray -> Option<Hit>, sqrt: real -> real, x0: int, y0: int, width: int, height: int, i: int, j: int)
    requires IsSqrt(sqrt) && HitsOffCentre(scene) && 0 <= i < width && 0 <= j < height
    ensures 0 <= i + j * width < width * height
    ensures RenderedUpTo(scene, sqrt, x0, y0, width, height, i, j)[i + j * width := PixelColor(scene, sqrt, x0, y0, height, i, j)]
         == RenderedUpTo(scene, sqrt, x0, y0, width, height, i, j + 1)
  {
    IndexInGrid(i, j, width, height);
    PixelIndex(i, j, width);
    var before, after := RenderedUpTo(scene, sqrt, x0, y0, width, height, i, j), RenderedUpTo(scene, sqrt, x0, y0, width, height, i, j + 1);
    var k := i + j * width;
    forall m | 0 <= m < width * height
      ensures before[k := PixelColor(scene, sqrt, x0, y0, height, i, j)][m] == after[m]
    {
      if m != k {
        assert m == m % width + (m / width) * width;
      }
    }
  }

  /** A finished column: all of column `i` written is columns `0..i` written. */
  lemma ColumnDone(scene: Ray -> Option<Hit>, sqrt: real -> real, x0: int, y0: int, width: int, height: int, i: int)
    requires IsSqrt(sqrt) && HitsOffCentre(scene) && 0 <= i < width && 0 <= height
    ensures RenderedUpTo(scene, sqrt, x0, y0, width, height, i, height) == RenderedUpTo(scene, sqrt, x0, y0, width, height, i + 1, 0)
  {
    var l, r := RenderedUpTo(scene, sqrt, x0, y0, width, height, i, height), RenderedUpTo(scene, sqrt, x0, y0, width, height, i + 1, 0);
    forall m | 0 <= m < width * height
      ensures l[m] == r[m]
    {
      CellOfIndex(m, width, height);
    }
  }

  /** Tile pixel `(i, j)` of the rendered tile is the colour of the camera ray
    * through film pixel `(x0 + i, 100 - y0 - height + j)`. */
  lemma RenderPlacesPixel(scene: Ray -> Option<Hit>, sqrt: real -> real, x0: int, y0: int, width: int, height: int, i: int, j: int)
    requires IsSqrt(sqrt) && HitsOffCentre(scene) && 0 <= i < width && 0 <= j < height
    ensures 0 <= i + j * width < width * height
    ensures Rendered(scene, sqrt, x0, y0, width, height)[i + j * width]
         == Color(scene(CameraRay(x0 + i, ImageHeight - y0 - height + j)), CameraRay(x0 + i, ImageHeight - y0 - height + j), sqrt)
  {
    IndexInGrid(i, j, width, height);
    PixelIndex(i, j, width);
  }
}
