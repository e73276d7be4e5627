/** rcl/rcl.cpp: the WebAssembly entry points. `setup` records the image size in
  * two globals; `render` fills a freshly allocated RGBA byte buffer for one tile
  * with a colour gradient, bottom row first. The globals are the fields of a
  * `Renderer` object; the buffer is an array of `int`s, each in [0, 255]. */
module RclRender {
  import opened Numerics

  /** `sampling = max(1, sampling)`: at least one sample, and a positive request
    * is kept as it is. `render` computes it and then does not use it. */
  function Sampling(requested: int): (s: int)
    ensures 1 <= s
    ensures requested >= 1 ==> s == requested
    ensures requested < 1 ==> s == 1
  {
    if requested < 1 then 1 else requested
  }

  /** `int(255.99 * c)` stored into an `unsigned char`. */
  function Byte(c: real): (b: int)
    ensures 0 <= b < 256
    ensures 0.0 <= c < 1.0 ==> b as real <= 255.99 * c < b as real + 1.0
  {
    UnsignedChar(Trunc(255.99 * c))
  }

  /** Channel `c` of image pixel `(x, y)`: red grows with `x / WIDTH`, green with
    * `y / HEIGHT`, blue is the constant `0.2` and alpha is opaque. */
  function Channel(x: int, y: int, imageWidth: int, imageHeight: int, c: int): (b: int)
    requires 0 < imageWidth && 0 < imageHeight && 0 <= c < 4
    ensures 0 <= b < 256
  {
    if c == 0 then Byte(x as real / imageWidth as real)
    else if c == 1 then Byte(y as real / imageHeight as real)
    else if c == 2 then Byte(0.2)
    else 255
  }

  /** The image row of tile row `j`: `HEIGHT - y0 - height + j`. */
  function ImageRow(imageHeight: int, y0: int, height: int, j: int): int {
    imageHeight - y0 - height + j
  }

  /** The buffer `render(x0, y0, width, height, _)` returns: byte `k` is channel
    * `k % 4` of the `k / 4`-th pixel emitted, and pixels are emitted row by row
    * from tile row `height - 1` down to 0, each row left to right. */
  function Bytes(x0: int, y0: int, width: int, height: int, imageWidth: int, imageHeight: int): (r: seq<int>)
    requires 0 <= width && 0 <= height && 0 < imageWidth && 0 < imageHeight
    ensures |r| == width * height * 4
  {
    if width == 0 then []
    else
      seq(width * height * 4, k requires 0 <= k < width * height * 4 =>
        var q := k / 4;
        Channel(x0 + q % width, ImageRow(imageHeight, y0, height, height - 1 - q / width), imageWidth, imageHeight, k % 4))
  }

  /** The byte where tile pixel `(i, j)` starts: rows are emitted from the top
    * tile row `height - 1` down, so row `j` is the `(height - 1 - j)`-th one. */
  function PixelStart(width: int, height: int, i: int, j: int): int {
    ((height - 1 - j) * width + i) * 4
  }

  /** Row `j` of a tile runs from `PixelStart(.., 0, j)` to where row `j - 1`
    * starts, inside the buffer of `width * height * 4` bytes. */
  lemma RowBounds(width: int, height: int, j: int)
    requires 0 <= width && 0 <= j < height
    ensures 0 <= PixelStart(width, height, 0, j)
    ensures PixelStart(width, height, width, j) == PixelStart(width, height, 0, j - 1)
    ensures PixelStart(width, height, width, j) <= width * height * 4
  {
    var a := height - 1 - j;
    MulSucc(a, width);
    MulNonneg(a, width);
    MulSucc(a + 1, width);
    MulNonneg(j, width);
    assert height * width == (a + 1) * width + j * width by {
      MulAdd(a + 1, j, width);
    }
  }

  /** Tile pixel `(i, j)` occupies the four bytes from `PixelStart`, holding the
    * channels of image pixel `(x0 + i, HEIGHT - y0 - height + j)`. */
  lemma PixelBytes(x0: int, y0: int, width: int, height: int, imageWidth: int, imageHeight: int, i: int, j: int)
    requires 0 < imageWidth && 0 < imageHeight && 0 <= i < width && 0 <= j < height
    ensures 0 <= PixelStart(width, height, i, j)
    ensures PixelStart(width, height, i, j) + 4 <= |Bytes(x0, y0, width, height, imageWidth, imageHeight)|
    ensures var s := PixelStart(width, height, i, j);
      forall k :: s <= k < s + 4 ==>
        Bytes(x0, y0, width, height, imageWidth, imageHeight)[k]
        == Channel(x0 + i, ImageRow(imageHeight, y0, height, j), imageWidth, imageHeight, k - s)
  {
    var q := (height - 1 - j) * width + i;
    PixelIndex(i, height - 1 - j, width);
    IndexInGrid(i, height - 1 - j, width, height);
    var s := q * 4;
    forall k | s <= k < s + 4
      ensures k / 4 == q && k % 4 == k - s
    {
    }
  }

  /** The four `ret[p++] = ...` of one pixel: the bytes from `p` take the
    * channels of image pixel `(x, y)` and nothing else changes. */
  method Emit(ret: array<int>, p: int, x: int, y: int, imageWidth: int, imageHeight: int) returns (next: int)
    requires 0 < imageWidth && 0 < imageHeight && 0 <= p && p + 4 <= ret.Length
    modifies ret
    ensures next == p + 4
    ensures forall k :: p <= k < p + 4 ==> ret[k] == Channel(x, y, imageWidth, imageHeight, k - p)
    ensures forall k :: 0 <= k < ret.Length && !(p <= k < p + 4) ==> ret[k] == old(ret[k])
  {
    next := p;
    ret[next] := Byte(x as real / imageWidth as real);
    next := next + 1;
    ret[next] := Byte(y as real / imageHeight as real);
    next := next + 1;
    ret[next] := Byte(0.2);
    next := next + 1;
    ret[next] := 255;
    next := next + 1;
  }

  /** Every fourth byte, starting with the fourth, is an opaque alpha of 255, and
    * every byte lies in [0, 255]. */
  lemma AlphaOpaque(x0: int, y0: int, width: int, height: int, imageWidth: int, imageHeight: int, k: int)
    requires 0 <= width && 0 <= height && 0 < imageWidth && 0 < imageHeight
    requires 0 <= k < width * height * 4
    ensures 0 <= Bytes(x0, y0, width, height, imageWidth, imageHeight)[k] < 256
    ensures k % 4 == 3 ==> Bytes(x0, y0, width, height, imageWidth, imageHeight)[k] == 255
  {
  }

  /** Inside the image (`0 <= x < WIDTH`) the red byte is the truncated gradient
    * `int(255.99 * x / WIDTH)`, without wrap-around, and blue is always 51. */
  lemma GradientBytes(x: int, y: int, imageWidth: int, imageHeight: int)
    requires 0 < imageWidth && 0 < imageHeight && 0 <= x < imageWidth
    ensures Channel(x, y, imageWidth, imageHeight, 0) == Trunc(255.99 * (x as real / imageWidth as real))
    ensures 0 <= Channel(x, y, imageWidth, imageHeight, 0) <= 255
    ensures Channel(x, y, imageWidth, imageHeight, 2) == 51
  {
    var f := x as real / imageWidth as real;
    FractionBelowOne(x, imageWidth);
    assert 0.0 <= 255.99 * f < 255.99;
    assert Trunc(255.99 * 0.2) == 51;
  }

  lemma FractionBelowOne(x: int, w: int)
    requires 0 <= x < w
    ensures 0.0 <= x as real / w as real < 1.0
  {
    var f := x as real / w as real;
    assert f * w as real == x as real;
  }

  /** The module's globals and its two entry points. */
  class Renderer {
    /** `WIDTH` and `HEIGHT`. */
    var imageWidth: int
    var imageHeight: int

    /** Globals start at zero. */
    constructor ()
      ensures imageWidth == 0 && imageHeight == 0
    {
      imageWidth, imageHeight := 0, 0;
    }

    /** `setup(width, height, seedrandom)`: records the image size; the seed is
      * not used. */
    method Setup(width: int, height: int, seedrandom: string)
      modifies this
      ensures imageWidth == width && imageHeight == height
    {
      imageWidth := width;
      imageHeight := height;
    }

    /** `render(x0, y0, width, height, sampling)`: `width * height * 4` bytes,
      * written through a cursor `p` that ends exactly at the buffer's size. The
      * gradient divides by the image size, so `setup` must have given a positive
      * one. */
    method Render(x0: int, y0: int, width: int, height: int, sampling: int) returns (ret: array<int>)
      requires 0 < imageWidth && 0 < imageHeight && 0 <= width && 0 <= height
      ensures fresh(ret)
      ensures ret[..] == Bytes(x0, y0, width, height, imageWidth, imageHeight)
    {
      var samples := Sampling(sampling);
      ghost var bytes := Bytes(x0, y0, width, height, imageWidth, imageHeight);
      ret := new int[width * height * 4];
      var p := 0;
      var j := height - 1;
      while j >= 0
        invariant -1 <= j < height
        invariant p == PixelStart(width, height, 0, j)
        invariant forall k :: 0 <= k < p ==> ret[k] == bytes[k]
      {
        RowBounds(width, height, j);
        var i := 0;
        while i < width
          invariant 0 <= i <= width
          invariant p == PixelStart(width, height, i, j)
          invariant forall k :: 0 <= k < p ==> ret[k] == bytes[k]
        {
          var x := x0 + i;
          var y := imageHeight - y0 - height + j;
          PixelBytes(x0, y0, width, height, imageWidth, imageHeight, i, j);
          ghost var p0 := p;
          p := Emit(ret, p, x, y, imageWidth, imageHeight);
          forall k | p0 <= k < p
            ensures ret[k] == bytes[k]
          {
            assert ret[k] == Channel(x, y, imageWidth, imageHeight, k - p0);
          }
          i := i + 1;
        }
        j := j - 1;
      }
      assert p == width * height * 4;
    }
  }
}
