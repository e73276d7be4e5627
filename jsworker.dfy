/** worker.js: the prototype's render worker. `render(data, info)` walks the
  * pixels of a tile from its top row down and writes four channels per pixel
  * into a `Uint8ClampedArray`. The globals `WIDTH` and `HEIGHT` are the image
  * size, and the world's `hit(r, 0, Infinity)` is the parameter `world`: the
  * `Sphere` and `HitList` worker.js imports are not exported by utils.js, and
  * the unbounded window is not a real number. */
module JsWorker {
  import opened Wrappers
  import opened Numerics
  import V = CoreVector3
  import opened JsUtils
  import RclRaytracer
  import RclRender
  import JsRaytracer

  /** The sky's two colours. */
  const White: Vec3 := V.Vector3(1.0, 1.0, 1.0)
  const Sky: Vec3 := V.Vector3(0.5, 0.7, 1.0)

  /** A coordinate of a unit vector lies in [-1, 1]. */
  lemma UnitCoordinate(a: real, rest: real)
    requires 0.0 <= rest && a * a + rest == 1.0
    ensures -1.0 <= a <= 1.0
  {
    var m := if a < 0.0 then -a else a;
    assert m * m == a * a <= 1.0;
    SquaresOrdered(m, 1.0);
  }

  /** `f = 0.5 * (unitDirection.y + 1)`, in [0, 1]. */
  function SkyBlend(r: Ray, sqrt: real -> real): (f: real)
    requires IsSqrt(sqrt) && Len(r.direction, sqrt) != 0.0
    ensures 0.0 <= f <= 1.0
  {
    var u := Unit(r.direction, sqrt);
    UnitCoordinate(u.y, u.x * u.x + u.z * u.z);
    0.5 * (u.y + 1.0)
  }

  /** `color(r, world)`: on a hit, the normal mapped from [-1, 1] to [0, 1]
    * channel by channel; on a miss, the blend of white and sky blue by the
    * height of the unit direction, whose blue channel is always 1. `h` is
    * `world.hit(r, 0, Infinity)`. */
  function Color(r: Ray, h: Option<JsRaytracer.Hit>, sqrt: real -> real): (c: Vec3)
    requires IsSqrt(sqrt) && Len(r.direction, sqrt) != 0.0
    ensures h.Some? ==> Sub(Muls(c, 2.0), White) == h.value.normal
    ensures h.Some? && Sqlen(h.value.normal) == 1.0 ==> 0.0 <= c.x <= 1.0 && 0.0 <= c.y <= 1.0 && 0.0 <= c.z <= 1.0
    ensures h.None? ==> var f := SkyBlend(r, sqrt);
      c == Add(Muls(White, 1.0 - f), Muls(Sky, f))
    ensures h.None? ==> 0.5 <= c.x <= 1.0 && 0.7 <= c.y <= 1.0 && c.z == 1.0
  {
    if h.Some? then
      var n := h.value.normal;
      if Sqlen(n) == 1.0 then
        UnitCoordinate(n.x, n.y * n.y + n.z * n.z);
        UnitCoordinate(n.y, n.x * n.x + n.z * n.z);
        UnitCoordinate(n.z, n.x * n.x + n.y * n.y);
        Muls(V.Vector3(n.x + 1.0, n.y + 1.0, n.z + 1.0), 0.5)
      else
        Muls(V.Vector3(n.x + 1.0, n.y + 1.0, n.z + 1.0), 0.5)
    else
      var f := SkyBlend(r, sqrt);
      Add(Muls(White, 1.0 - f), Muls(Sky, f))
  }

  /** The fixed camera of `render`. */
  const LowerLeftCorner: Vec3 := V.Vector3(-2.0, -1.125, -1.0)
  const Horizontal: Vec3 := V.Vector3(4.0, 0.0, 0.0)
  const Vertical: Vec3 := V.Vector3(0.0, 2.25, 0.0)
  const Origin: Vec3 := V.Vector3(0.0, 0.0, 0.0)

  /** The ray through `(u, v)`: from the origin to `lowerLeftCorner + u *
    * horizontal + v * vertical`, which always points one unit into the screen,
    * so it is never the zero vector. */
  function ViewRay(u: real, v: real, sqrt: real -> real): (r: Ray)
    requires IsSqrt(sqrt)
    ensures r.origin == Origin && r.direction.z == -1.0
    ensures PointAt(r, 1.0) == Add(Add(LowerLeftCorner, Muls(Horizontal, u)), Muls(Vertical, v))
    ensures Len(r.direction, sqrt) != 0.0
  {
    var r := RclRaytracer.Ray(Origin, Add(Add(LowerLeftCorner, Muls(Horizontal, u)), Muls(Vertical, v)));
    JsRaytracer.LengthNonZero(r.direction, sqrt);
    r
  }

  /** `u = (info.x + i) / WIDTH` and `v = (HEIGHT - (info.y + (info.height -
    * j))) / HEIGHT` for tile pixel `(i, j)`. */
  function U(x: int, i: int, imageWidth: int): real
    requires 0 < imageWidth
  {
    (x + i) as real / imageWidth as real
  }

  function VCoord(y: int, height: int, j: int, imageHeight: int): real
    requires 0 < imageHeight
  {
    (imageHeight - (y + (height - j))) as real / imageHeight as real
  }

  /** The colour of tile pixel `(i, j)`. */
  function PixelColor(x: int, y: int, height: int, i: int, j: int, imageWidth: int, imageHeight: int,
                      world: Ray -> Option<JsRaytracer.Hit>, sqrt: real -> real): Vec3
    requires 0 < imageWidth && 0 < imageHeight && IsSqrt(sqrt)
  {
    var r := ViewRay(U(x, i, imageWidth), VCoord(y, height, j, imageHeight), sqrt);
    Color(r, world(r), sqrt)
  }

  /** Channel `c` of a colour as the clamped array stores it: `col.r * 255`,
    * `col.g * 255`, `col.b * 255`, then an opaque 255. */
  function Channel(col: Vec3, c: int): (b: int)
    requires 0 <= c < 4
    ensures 0 <= b <= 255
  {
    if c == 0 then Uint8Clamp(col.x * 255.0)
    else if c == 1 then Uint8Clamp(col.y * 255.0)
    else if c == 2 then Uint8Clamp(col.z * 255.0)
    else 255
  }

  /** The colour `render` computes for each tile pixel, as a function of
    * `(i, j)`. */
  function Pixels(x: int, y: int, height: int, imageWidth: int, imageHeight: int,
                  world: Ray -> Option<JsRaytracer.Hit>, sqrt: real -> real): (pixel: (int, int) -> Vec3)
    requires 0 < imageWidth && 0 < imageHeight && IsSqrt(sqrt)
    ensures forall i, j :: pixel(i, j) == PixelColor(x, y, height, i, j, imageWidth, imageHeight, world, sqrt)
  {
    (i, j) => PixelColor(x, y, height, i, j, imageWidth, imageHeight, world, sqrt)
  }

  /** The buffer of `width * height * 4` entries that the render loop fills
    * with the colours `pixel`: byte `k` is channel `k % 4` of the `k / 4`-th
    * pixel written, and pixels are written row by row from tile row
    * `height - 1` down to 0, each row left to right. */
  function Image(width: int, height: int, pixel: (int, int) -> Vec3): (r: seq<int>)
    requires 0 <= width && 0 <= height
    ensures |r| == width * height * 4
  {
    if width == 0 then []
    else seq(width * height * 4, k requires 0 <= k => ImageByte(width, height, pixel, k))
  }

  /** Byte `k` of the buffer. */
  function ImageByte(width: int, height: int, pixel: (int, int) -> Vec3, k: int): int
    requires 0 < width && 0 <= k
  {
    var q := k / 4;
    Channel(pixel(q % width, height - 1 - q / width), k % 4)
  }

  /** Tile pixel `(i, j)` occupies the four bytes of `Image` from `PixelStart`. */
  lemma ImagePixel(width: int, height: int, pixel: (int, int) -> Vec3, i: int, j: int)
    requires 0 <= i < width && 0 <= j < height
    ensures 0 <= RclRender.PixelStart(width, height, i, j)
    ensures RclRender.PixelStart(width, height, i, j) + 4 <= width * height * 4
    ensures var s := RclRender.PixelStart(width, height, i, j);
      forall k :: s <= k < s + 4 ==> Image(width, height, pixel)[k] == Channel(pixel(i, j), k - s)
  {
    var q := (height - 1 - j) * width + i;
    PixelIndex(i, height - 1 - j, width);
    IndexInGrid(i, height - 1 - j, width, height);
    var s := q * 4;
    forall k | s <= k < s + 4
      ensures ImageByte(width, height, pixel, k) == Channel(pixel(i, j), k - s)
    {
      assert k / 4 == q && k % 4 == k - s;
    }
  }

  /** The bytes `render` leaves in a buffer of `width * height * 4` entries. */
  function Bytes(x: int, y: int, width: int, height: int, imageWidth: int, imageHeight: int,
                 world: Ray -> Option<JsRaytracer.Hit>, sqrt: real -> real): (r: seq<int>)
    requires 0 <= width && 0 <= height && 0 < imageWidth && 0 < imageHeight && IsSqrt(sqrt)
    ensures |r| == width * height * 4
  {
    Image(width, height, Pixels(x, y, height, imageWidth, imageHeight, world, sqrt))
  }

  /** Tile pixel `(i, j)` occupies the four bytes from `PixelStart`: its
    * clamped colour channels, then 255. */
  lemma PixelBytes(x: int, y: int, width: int, height: int, imageWidth: int, imageHeight: int,
                   world: Ray -> Option<JsRaytracer.Hit>, sqrt: real -> real, i: int, j: int)
    requires 0 < imageWidth && 0 < imageHeight && IsSqrt(sqrt) && 0 <= i < width && 0 <= j < height
    ensures 0 <= RclRender.PixelStart(width, height, i, j)
    ensures RclRender.PixelStart(width, height, i, j) + 4 <= width * height * 4
    ensures var s := RclRender.PixelStart(width, height, i, j);
      forall k :: s <= k < s + 4 ==>
        Bytes(x, y, width, height, imageWidth, imageHeight, world, sqrt)[k]
        == Channel(PixelColor(x, y, height, i, j, imageWidth, imageHeight, world, sqrt), k - s)
  {
    ImagePixel(width, height, Pixels(x, y, height, imageWidth, imageHeight, world, sqrt), i, j);
  }

  /** Every byte is in [0, 255], and every fourth one, from the fourth on, is an
    * opaque 255. */
  lemma AlphaOpaque(x: int, y: int, width: int, height: int, imageWidth: int, imageHeight: int,
                    world: Ray -> Option<JsRaytracer.Hit>, sqrt: real -> real, k: int)
    requires 0 <= width && 0 <= height && 0 < imageWidth && 0 < imageHeight && IsSqrt(sqrt)
    requires 0 <= k < width * height * 4
    ensures 0 <= Bytes(x, y, width, height, imageWidth, imageHeight, world, sqrt)[k] <= 255
    ensures k % 4 == 3 ==> Bytes(x, y, width, height, imageWidth, imageHeight, world, sqrt)[k] == 255
  {
  }

  /** `data[p++] = col.r * 255` and so on for one pixel: the four bytes from
    * `p` take the pixel's channels and nothing else changes. */
  method WritePixel(data: array<int>, p: int, col: Vec3) returns (next: int)
    requires 0 <= p && p + 4 <= data.Length
    modifies data
    ensures next == p + 4
    ensures forall k :: p <= k < p + 4 ==> data[k] == Channel(col, k - p)
    ensures forall k :: 0 <= k < data.Length && !(p <= k < p + 4) ==> data[k] == old(data[k])
  {
    next := p;
    data[next] := Uint8Clamp(col.x * 255.0);
    next := next + 1;
    data[next] := Uint8Clamp(col.y * 255.0);
    next := next + 1;
    data[next] := Uint8Clamp(col.z * 255.0);
    next := next + 1;
    data[next] := 255;
    next := next + 1;
  }

  /** `render(data, info)`: writes exactly the buffer `Bytes` describes, which
    * `work` allocates with `width * height * 4` entries. */
  method Render(data: array<int>, x: int, y: int, width: int, height: int, imageWidth: int, imageHeight: int,
                world: Ray -> Option<JsRaytracer.Hit>, sqrt: real -> real)
    requires 0 <= width && 0 <= height && 0 < imageWidth && 0 < imageHeight && IsSqrt(sqrt)
    requires data.Length == width * height * 4
    modifies data
    ensures data[..] == Bytes(x, y, width, height, imageWidth, imageHeight, world, sqrt)
  {
    Fill(data, width, height, Pixels(x, y, height, imageWidth, imageHeight, world, sqrt));
  }

  /** The loops of `render`, with the colour of each pixel given by `pixel`:
    * the cursor `p` walks the buffer once and leaves it equal to `Image`. */
  method Fill(data: array<int>, width: int, height: int, pixel: (int, int) -> Vec3)
    requires 0 <= width && 0 <= height && data.Length == width * height * 4
    modifies data
    ensures data[..] == Image(width, height, pixel)
  {
    ghost var bytes := Image(width, height, pixel);
    var p := 0;
    var j := height - 1;
    while j >= 0
      invariant -1 <= j < height
      invariant p == RclRender.PixelStart(width, height, 0, j)
      invariant forall k :: 0 <= k < p ==> data[k] == bytes[k]
    {
      RclRender.RowBounds(width, height, j);
      var i := 0;
      while i < width
        invariant 0 <= i <= width
        invariant p == RclRender.PixelStart(width, height, i, j)
        invariant forall k :: 0 <= k < p ==> data[k] == bytes[k]
      {
        ImagePixel(width, height, pixel, i, j);
        var col := pixel(i, j);
        ghost var p0 := p;
        p := WritePixel(data, p, col);
        forall k | p0 <= k < p
          ensures data[k] == bytes[k]
        {
          assert data[k] == Channel(col, k - p0);
        }
        i := i + 1;
      }
      j := j - 1;
    }
    assert p == width * height * 4;
    assert data[..] == bytes;
  }

  /** `work(input)`: a zeroed buffer of `width * height * 4` bytes, filled by
    * `render`. */
  method Work(x: int, y: int, width: int, height: int, imageWidth: int, imageHeight: int,
              world: Ray -> Option<JsRaytracer.Hit>, sqrt: real -> real) returns (data: array<int>)
    requires 0 <= width && 0 <= height && 0 < imageWidth && 0 < imageHeight && IsSqrt(sqrt)
    ensures fresh(data)
    ensures data[..] == Bytes(x, y, width, height, imageWidth, imageHeight, world, sqrt)
  {
    data := new int[width * height * 4](_ => 0);
    Render(data, x, y, width, height, imageWidth, imageHeight, world, sqrt);
  }
}
