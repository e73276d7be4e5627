/** src/core/Film.h and src/core/Film.cc: the image being rendered (`Film`) and
  * the rectangles of it that are rendered separately (`FilmTile`). Both hold
  * their pixels row-major: pixel `(x, y)` is element `x + y * width`. Writing
  * the files themselves (PFM, PBM, PNG through lodepng, EXR through tinyexr) is
  * not modelled; the quantisation to bytes, the PNG buffer layout, the order of
  * the PBM samples and the choice of format are. */
module CoreFilm {
  import opened Numerics
  import opened CoreVector3

  /** The contents of a `FilmTile`: its place in the film, its size and its
    * pixels. */
  datatype TileImage = TileImage(x: int, y: int, width: int, height: int, data: seq<Vector3>)

  predicate WellSized(t: TileImage) {
    0 <= t.width && 0 <= t.height && |t.data| == t.width * t.height
  }

  /** `MergeTile` has no bounds check: the tile has to lie inside the film. */
  predicate FitsIn(t: TileImage, width: int, height: int) {
    WellSized(t) && 0 <= t.x && t.x + t.width <= width && 0 <= t.y && t.y + t.height <= height
  }

  /** `FilmTile`: a rectangle of pixels written one at a time. */
  class FilmTile {
    const x: int
    const y: int
    const width: int
    const height: int
    var data: seq<Vector3>

    predicate Valid()
      reads this
    {
      0 <= width && 0 <= height && |data| == width * height
    }

    function Image(): (t: TileImage)
      reads this
      ensures Valid() ==> WellSized(t)
    {
      TileImage(x, y, width, height, data)
    }

    /** `FilmTile(x, y, width, height)`: `data.resize(width * height)` fills it
      * with `Vector3()`, the zero vector. */
    constructor (x: int, y: int, width: int, height: int)
      requires 0 <= width && 0 <= height
      ensures Valid()
      ensures this.x == x && this.y == y && this.width == width && this.height == height
      ensures data == seq(width * height, _ => Zero)
    {
      this.x, this.y, this.width, this.height := x, y, width, height;
      data := seq(width * height, _ => Zero);
    }

    /** `WritePixel(x, y, rgb)`: stores `rgb` at `x + y * width` and nothing else.
      * The index is not checked, so it has to be inside the tile. */
    method WritePixel(px: int, py: int, rgb: Vector3)
      requires Valid() && 0 <= px < width && 0 <= py < height
      modifies this
      ensures Valid()
      ensures data == old(data)[TileIndex(Image(), px, py) := rgb]
    {
      var k := px + py * width;
      IndexInGrid(px, py, width, height);
      data := data[k := rgb];
    }
  }

  /** The pixel of `t` at film index `i` of a film `width` wide, if `t` covers
    * it. */
  predicate Covers(t: TileImage, width: int, i: int)
    requires 0 < width
  {
    t.x <= i % width < t.x + t.width && t.y <= i / width < t.y + t.height
  }

  /** Of the pixels of `t`, the rows before `rows` and the first `cols` of row
    * `rows` have been copied. */
  predicate CopiedSoFar(t: TileImage, width: int, i: int, rows: int, cols: int)
    requires 0 < width
  {
    Covers(t, width, i) && (i / width < t.y + rows || (i / width == t.y + rows && i % width < t.x + cols))
  }

  /** Index of tile pixel `(x, y)` inside the tile's own data. */
  function TileIndex(t: TileImage, x: int, y: int): (k: int)
    requires WellSized(t) && 0 <= x < t.width && 0 <= y < t.height
    ensures 0 <= k < |t.data|
  {
    IndexInGrid(x, y, t.width, t.height);
    x + y * t.width
  }

  /** The film after `MergeTile` has copied the first `rows` rows of `t` and the
    * first `cols` pixels of the next one. */
  function MergedUpTo(data: seq<Vector3>, width: int, t: TileImage, rows: int, cols: int): (r: seq<Vector3>)
    requires 0 < width && WellSized(t)
    ensures |r| == |data|
  {
    seq(|data|, i requires 0 <= i < |data| =>
      if CopiedSoFar(t, width, i, rows, cols) then t.data[TileIndex(t, i % width - t.x, i / width - t.y)]
      else data[i])
  }

  /** The film after `MergeTile(t)`: every pixel the tile covers replaced by the
    * tile's pixel, every other pixel as it was. */
  function Merged(data: seq<Vector3>, width: int, t: TileImage): (r: seq<Vector3>)
    requires 0 < width && WellSized(t)
    ensures |r| == |data|
    ensures forall i :: 0 <= i < |data| && !Covers(t, width, i) ==> r[i] == data[i]
  {
    MergedUpTo(data, width, t, t.height, 0)
  }

  /** `Film`: the whole image. */
  class Film {
    const width: int
    const height: int
    const filename: string
    var data: seq<Vector3>

    predicate Valid()
      reads this
    {
      0 < width && 0 <= height && |data| == width * height
    }

    /** `Film(width, height, filename)`: `width * height` zero pixels. */
    constructor (width: int, height: int, filename: string)
      requires 0 < width && 0 <= height
      ensures Valid()
      ensures this.width == width && this.height == height && this.filename == filename
      ensures data == seq(width * height, _ => Zero)
    {
      this.width, this.height, this.filename := width, height, filename;
      data := seq(width * height, _ => Zero);
    }

    /** `MergeTile(tile)`: copies the tile row by row into the film. */
    method MergeTile(tile: FilmTile)
      requires Valid() && tile.Valid() && FitsIn(tile.Image(), width, height)
      modifies this
      ensures Valid()
      ensures data == Merged(old(data), width, tile.Image())
    {
      ghost var d0 := data;
      var t := tile.Image();
      var y := 0;
      while y < tile.height
        invariant 0 <= y <= tile.height && t == tile.Image()
        invariant data == MergedUpTo(d0, width, t, y, 0)
      {
        var x := 0;
        while x < tile.width
          invariant 0 <= x <= tile.width
          invariant data == MergedUpTo(d0, width, t, y, x)
        {
          var px := x + tile.x;
          var py := y + tile.y;
          IndexInGrid(px, py, width, height);
          MergeStep(d0, width, t, y, x);
          data := data[px + py * width := tile.data[TileIndex(t, x, y)]];
          x := x + 1;
        }
        RowDone(d0, width, t, y);
        y := y + 1;
      }
    }
  }

  /** Copying pixel `(x, y)` of the tile is one more step of `MergedUpTo`. */
  lemma MergeStep(data: seq<Vector3>, width: int, t: TileImage, y: int, x: int)
    requires 0 < width && WellSized(t) && 0 <= x < t.width && 0 <= y < t.height
    requires 0 <= t.x && t.x + t.width <= width && 0 <= t.y
    requires 0 <= (x + t.x) + (y + t.y) * width < |data|
    ensures MergedUpTo(data, width, t, y, x)[(x + t.x) + (y + t.y) * width := t.data[TileIndex(t, x, y)]]
         == MergedUpTo(data, width, t, y, x + 1)
  {
    var j := (x + t.x) + (y + t.y) * width;
    var before, after := MergedUpTo(data, width, t, y, x), MergedUpTo(data, width, t, y, x + 1);
    PixelIndex(x + t.x, y + t.y, width);
    forall i | 0 <= i < |data|
      ensures before[j := t.data[TileIndex(t, x, y)]][i] == after[i]
    {
      if i != j {
        assert i == i % width + (i / width) * width;
        assert CopiedSoFar(t, width, i, y, x) == CopiedSoFar(t, width, i, y, x + 1);
      }
    }
  }

  /** A finished row: copying all of row `y` is copying rows `0..y`. */
  lemma RowDone(data: seq<Vector3>, width: int, t: TileImage, y: int)
    requires 0 < width && WellSized(t)
    ensures MergedUpTo(data, width, t, y, t.width) == MergedUpTo(data, width, t, y + 1, 0)
  {
    var l, r := MergedUpTo(data, width, t, y, t.width), MergedUpTo(data, width, t, y + 1, 0);
    forall i | 0 <= i < |data|
      ensures l[i] == r[i]
    {
      assert CopiedSoFar(t, width, i, y, t.width) == CopiedSoFar(t, width, i, y + 1, 0);
    }
  }

  /** After the merge, film pixel `(x + tile.x, y + tile.y)` holds tile pixel
    * `(x, y)`. */
  lemma MergeTileWrites(data: seq<Vector3>, width: int, height: int, t: TileImage, x: int, y: int)
    requires 0 < width && |data| == width * height && FitsIn(t, width, height)
    requires 0 <= x < t.width && 0 <= y < t.height
    ensures 0 <= (x + t.x) + (y + t.y) * width < |data|
    ensures Merged(data, width, t)[(x + t.x) + (y + t.y) * width] == t.data[TileIndex(t, x, y)]
  {
    var px, py := x + t.x, y + t.y;
    var j := px + py * width;
    IndexInGrid(px, py, width, height);
    PixelIndex(px, py, width);
    assert j % width - t.x == x && j / width - t.y == y;
    MergedAt(data, width, t, j);
  }

  /** A pixel the tile covers holds, after the merge, the tile's pixel at the
    * same place. */
  lemma MergedAt(data: seq<Vector3>, width: int, t: TileImage, j: int)
    requires 0 < width && WellSized(t) && 0 <= j < |data| && Covers(t, width, j)
    ensures Merged(data, width, t)[j] == t.data[TileIndex(t, j % width - t.x, j / width - t.y)]
  {
    assert CopiedSoFar(t, width, j, t.height, 0);
  }

  /** Merging the same tile twice is merging it once. */
  lemma MergeIdempotent(data: seq<Vector3>, width: int, t: TileImage)
    requires 0 < width && WellSized(t)
    ensures Merged(Merged(data, width, t), width, t) == Merged(data, width, t)
  {
  }

  /** Tiles whose rectangles do not overlap. */
  predicate Disjoint(a: TileImage, b: TileImage) {
    a.x + a.width <= b.x || b.x + b.width <= a.x || a.y + a.height <= b.y || b.y + b.height <= a.y
  }

  /** Merges of non-overlapping tiles commute. */
  lemma MergeCommutes(data: seq<Vector3>, width: int, a: TileImage, b: TileImage)
    requires 0 < width && WellSized(a) && WellSized(b) && Disjoint(a, b)
    ensures Merged(Merged(data, width, a), width, b) == Merged(Merged(data, width, b), width, a)
  {
    var l, r := Merged(Merged(data, width, a), width, b), Merged(Merged(data, width, b), width, a);
    forall i | 0 <= i < |data|
      ensures l[i] == r[i]
    {
      assert !(Covers(a, width, i) && Covers(b, width, i));
    }
  }

  // ------------------------------------------------------------ saving

  /** `int(255.99 * v)`: a channel in [0, 1] becomes a byte value 0..255. */
  function Quantize(v: real): (n: int)
    ensures 0.0 <= v <= 1.0 ==> 0 <= n <= 255
    ensures v < 0.0 ==> n <= 0
  {
    Trunc(255.99 * v)
  }

  /** One colour as the three `int`s `SaveImagePBM` prints. */
  datatype Sample = Sample(r: int, g: int, b: int)

  function Quantized(v: Vector3): (s: Sample)
    ensures 0.0 <= v.x <= 1.0 && 0.0 <= v.y <= 1.0 && 0.0 <= v.z <= 1.0 ==>
      0 <= s.r <= 255 && 0 <= s.g <= 255 && 0 <= s.b <= 255
  {
    Sample(Quantize(v.x), Quantize(v.y), Quantize(v.z))
  }

  /** `SaveImagePBM`: the samples in the order they are printed, the top row
    * (`y == height - 1`) first and each row left to right; sample `k` is pixel
    * `(k % width, height - 1 - k / width)`. */
  function PbmOrder(data: seq<Vector3>, width: int, height: int): (r: seq<Sample>)
    requires 0 < width && 0 <= height && |data| == width * height
    ensures |r| == width * height
  {
    seq(width * height, k requires 0 <= k < width * height =>
      PbmSampleAt(data, width, height, k))
  }

  function PbmSampleAt(data: seq<Vector3>, width: int, height: int, k: int): Sample
    requires 0 < width && 0 <= height && |data| == width * height && 0 <= k < width * height
  {
    var x, row := k % width, k / width;
    assert row < height by {
      if row >= height {
        MultipleAtLeast(row - height + 1, width);
        assert false;
      }
    }
    IndexInGrid(x, height - 1 - row, width, height);
    Quantized(data[x + (height - 1 - row) * width])
  }

  /** Pixel `(x, y)` is printed as sample `(height - 1 - y) * width + x`. */
  lemma PbmOrderPlacesPixel(data: seq<Vector3>, width: int, height: int, x: int, y: int)
    requires 0 < width && 0 <= height && |data| == width * height
    requires 0 <= x < width && 0 <= y < height
    ensures 0 <= x + (height - 1 - y) * width < width * height
    ensures 0 <= x + y * width < |data|
    ensures PbmOrder(data, width, height)[x + (height - 1 - y) * width] == Quantized(data[x + y * width])
  {
    IndexInGrid(x, height - 1 - y, width, height);
    IndexInGrid(x, y, width, height);
    PixelIndex(x, height - 1 - y, width);
  }

  /** `SaveImagePBM`'s two loops, `y` from `height - 1` down to 0 and `x` from 0
    * up, collecting what they print. */
  method PbmSamples(f: Film) returns (out: seq<Sample>)
    requires f.Valid()
    ensures out == PbmOrder(f.data, f.width, f.height)
  {
    ghost var all := PbmOrder(f.data, f.width, f.height);
    ghost var done := 0;
    out := [];
    var y := f.height - 1;
    while y >= 0
      invariant -1 <= y < f.height
      invariant done == (f.height - 1 - y) * f.width <= |all|
      invariant out == all[..done]
    {
      RowStart(f.width, f.height, f.height - 1 - y);
      var x := 0;
      while x < f.width
        invariant 0 <= x <= f.width
        invariant out == all[..done + x]
      {
        PbmOrderPlacesPixel(f.data, f.width, f.height, x, y);
        assert x + (f.height - 1 - y) * f.width == done + x;
        assert all[..done + x + 1] == all[..done + x] + [all[done + x]];
        out := out + [Quantized(f.data[x + y * f.width])];
        x := x + 1;
      }
      done := done + f.width;
      y := y - 1;
    }
  }

  /** Byte `c` of a pixel in the PNG buffer: the three quantised channels, each
    * stored into an `unsigned char`, then an opaque alpha. */
  function PngChannel(v: Vector3, c: int): (b: int)
    requires 0 <= c < 4
    ensures 0 <= b < 256
  {
    if c == 0 then UnsignedChar(Quantize(v.x))
    else if c == 1 then UnsignedChar(Quantize(v.y))
    else if c == 2 then UnsignedChar(Quantize(v.z))
    else 255
  }

  /** The buffer handed to `lodepng::encode`: pixel `i` at bytes `4 * i` to
    * `4 * i + 3`. */
  function PngBytes(data: seq<Vector3>): (r: seq<int>)
    ensures |r| == 4 * |data|
  {
    seq(4 * |data|, k requires 0 <= k < 4 * |data| => PngChannel(data[k / 4], k % 4))
  }

  /** Pixel `(x, y)` starts at byte `(x + y * width) * 4`; its alpha is 255 and
    * channels in [0, 1] are stored unchanged by the byte conversion. */
  lemma PngLayout(data: seq<Vector3>, width: int, height: int, x: int, y: int)
    requires |data| == width * height && 0 <= x < width && 0 <= y < height
    ensures 0 <= x + y * width < |data|
    ensures (x + y * width) * 4 + 3 < |PngBytes(data)|
    ensures PngBytes(data)[(x + y * width) * 4 + 3] == 255
    ensures 0.0 <= data[x + y * width].x <= 1.0 ==>
      PngBytes(data)[(x + y * width) * 4] == Quantize(data[x + y * width].x)
  {
    IndexInGrid(x, y, width, height);
    PngPixel(data, x + y * width);
  }

  /** `SaveImagePNG`'s loops filling the zero-initialised buffer. */
  method PngImage(f: Film) returns (image: array<int>)
    requires f.Valid()
    ensures fresh(image)
    ensures image[..] == PngBytes(f.data)
  {
    ghost var bytes := PngBytes(f.data);
    image := new int[f.width * f.height * 4](_ => 0);
    assert image.Length == |bytes|;
    ghost var done := 0;
    var y := 0;
    while y < f.height
      invariant 0 <= y <= f.height && image.Length == |bytes|
      invariant done == y * f.width <= |f.data|
      invariant forall k :: 0 <= k < done * 4 ==> image[k] == bytes[k]
    {
      RowStart(f.width, f.height, y);
      PngRow(f, image, y, done);
      done := done + f.width;
      y := y + 1;
    }
  }

  /** Row `y` of a `w` by `h` grid starts at `y * w` and ends, inside the
    * grid, where row `y + 1` starts. */
  lemma RowStart(w: int, h: int, y: int)
    requires 0 <= w && 0 <= y < h
    ensures y * w + w == (y + 1) * w <= w * h
  {
    assert w * h - (y + 1) * w == (h - y - 1) * w;
  }

  /** The inner loop of `SaveImagePNG` over row `y`, whose pixels start at
    * `start`: their bytes take their `PngBytes` values and the bytes of the
    * earlier rows stay. */
  method PngRow(f: Film, image: array<int>, y: int, ghost start: int)
    requires f.Valid() && 0 <= y < f.height && image.Length == 4 * |f.data|
    requires start == y * f.width && start + f.width <= |f.data|
    modifies image
    ensures forall k :: 0 <= k < start * 4 ==> image[k] == old(image[k])
    ensures forall k :: start * 4 <= k < (start + f.width) * 4 ==> image[k] == PngBytes(f.data)[k]
  {
    ghost var bytes := PngBytes(f.data);
    var x := 0;
    while x < f.width
      invariant 0 <= x <= f.width
      invariant forall k :: 0 <= k < start * 4 ==> image[k] == old(image[k])
      invariant forall k :: start * 4 <= k < (start + x) * 4 ==> image[k] == bytes[k]
    {
      var i := PixelOf(f, x, y);
      assert i == start + x;
      var v := f.data[i];
      var p := i * 4;
      PngPixel(f.data, i);
      ghost var before := image[..];
      StorePixel(image, p, v);
      forall k | start * 4 <= k < p + 4
        ensures image[k] == bytes[k]
      {
        if k < p {
          assert image[k] == before[k];
        } else {
          assert image[k] == PngChannel(v, k - p);
        }
      }
      x := x + 1;
    }
  }

  /** The four stores `image[p] = r` to `image[p + 3] = 255` of one pixel; the
    * rest of the buffer stays. */
  method StorePixel(image: array<int>, p: int, v: Vector3)
    requires 0 <= p && p + 4 <= image.Length
    modifies image
    ensures forall k :: p <= k < p + 4 ==> image[k] == PngChannel(v, k - p)
    ensures forall k :: 0 <= k < image.Length && !(p <= k < p + 4) ==> image[k] == old(image[k])
  {
    image[p] := UnsignedChar(Quantize(v.x));
    image[p + 1] := UnsignedChar(Quantize(v.y));
    image[p + 2] := UnsignedChar(Quantize(v.z));
    image[p + 3] := 255;
  }

  /** Index of pixel `(x, y)` in the film's data. */
  function PixelOf(f: Film, x: int, y: int): (k: int)
    requires f.Valid() && 0 <= x < f.width && 0 <= y < f.height
    reads f
    ensures 0 <= k < |f.data| && k == x + y * f.width
  {
    IndexInGrid(x, y, f.width, f.height);
    x + y * f.width
  }

  /** The four bytes of pixel `i` as `SaveImagePNG` writes them. */
  lemma PngPixel(data: seq<Vector3>, i: int)
    requires 0 <= i < |data|
    ensures i * 4 + 3 < |PngBytes(data)|
    ensures PngBytes(data)[i * 4] == UnsignedChar(Quantize(data[i].x))
    ensures PngBytes(data)[i * 4 + 1] == UnsignedChar(Quantize(data[i].y))
    ensures PngBytes(data)[i * 4 + 2] == UnsignedChar(Quantize(data[i].z))
    ensures PngBytes(data)[i * 4 + 3] == 255
    ensures forall k :: i * 4 <= k < i * 4 + 4 ==> PngBytes(data)[k] == PngChannel(data[i], k - i * 4)
  {
    forall k | i * 4 <= k < i * 4 + 4
      ensures k / 4 == i && k % 4 == k - i * 4
    {
      PixelIndex(k - i * 4, i, 4);
    }
  }

  // ------------------------------------------------------------ file type

  /** The formats `SaveImage` can write. */
  datatype ImageFormat = Pfm | Pbm | Png | Exr | Unsupported

  /** Index of the last `c` in `s`, or -1. */
  function LastIndexOf(s: string, c: char): (k: int)
    ensures -1 <= k < |s|
    ensures 0 <= k ==> s[k] == c
    ensures forall j :: k < j < |s| ==> s[j] != c
  {
    if |s| == 0 then -1
    else if s[|s| - 1] == c then |s| - 1
    else LastIndexOf(s[..|s| - 1], c)
  }

  /** The last occurrence is the one with no `c` after it. */
  lemma LastIndexOfIs(s: string, c: char, k: int)
    requires -1 <= k < |s| && (0 <= k ==> s[k] == c)
    requires forall j :: k < j < |s| ==> s[j] != c
    ensures LastIndexOf(s, c) == k
  {
  }

  /** `path::filename()`: what follows the last '/'. */
  function FileName(path: string): (name: string)
    ensures |name| <= |path| && name == path[|path| - |name|..]
    ensures forall j :: 0 <= j < |name| ==> name[j] != '/'
  {
    path[LastIndexOf(path, '/') + 1..]
  }

  /** `path::extension()`: from the last '.' of the file name on, unless the file
    * name is "." or "..", has no '.', or its only '.' comes first (a hidden file
    * such as ".png" has no extension). */
  function Extension(path: string): (e: string)
    ensures |e| <= |path| && e == path[|path| - |e|..]
    ensures e != [] ==> e[0] == '.' && forall j :: 1 <= j < |e| ==> e[j] != '.'
    ensures forall j :: 0 <= j < |e| ==> e[j] != '/'
  {
    var name := FileName(path);
    if name == "." || name == ".." then ""
    else
      var k := LastIndexOf(name, '.');
      if k <= 0 then "" else name[k..]
  }

  /** `SaveImage()`: the lower-cased extension picks the writer; any other
    * extension only logs an error. */
  function SaveFormat(filename: string): (r: ImageFormat)
    ensures r == Pfm <==> Lowered(Extension(filename)) == ".pfm"
    ensures r == Pbm <==> Lowered(Extension(filename)) == ".pbm"
    ensures r == Png <==> Lowered(Extension(filename)) == ".png"
    ensures r == Exr <==> Lowered(Extension(filename)) == ".exr"
    ensures r == Unsupported <==> Lowered(Extension(filename)) !in {".pfm", ".pbm", ".png", ".exr"}
  {
    var ext := Lowered(Extension(filename));
    if ext == ".pfm" then Pfm
    else if ext == ".pbm" then Pbm
    else if ext == ".png" then Png
    else if ext == ".exr" then Exr
    else Unsupported
  }

  /** A directory part: empty or ending in '/'. */
  predicate DirPart(dir: string) {
    dir == [] || dir[|dir| - 1] == '/'
  }

  /** `dir + stem + "." + ext`, with a non-empty stem and neither part holding a
    * '/' or a '.', has the extension `"." + ext`. */
  lemma ExtensionOfName(dir: string, stem: string, ext: string)
    requires DirPart(dir) && |stem| > 0
    requires forall j :: 0 <= j < |stem| ==> stem[j] != '/' && stem[j] != '.'
    requires forall j :: 0 <= j < |ext| ==> ext[j] != '/' && ext[j] != '.'
    ensures Extension(dir + stem + "." + ext) == "." + ext
  {
    var path, head, tail := dir + stem + "." + ext, dir + stem, "." + ext;
    assert path == head + tail;
    PathChars(dir, stem, ext);
    ExtensionOfPath(path, |dir|, |stem|);
    assert path[|head|..] == tail;
  }

  /** The characters of `dir + stem + "." + ext` that decide its extension. */
  lemma PathChars(dir: string, stem: string, ext: string)
    requires DirPart(dir) && |stem| > 0
    requires forall j :: 0 <= j < |stem| ==> stem[j] != '/' && stem[j] != '.'
    requires forall j :: 0 <= j < |ext| ==> ext[j] != '/' && ext[j] != '.'
    ensures var path, d, s := dir + stem + "." + ext, |dir|, |stem|;
      && (d == 0 || path[d - 1] == '/')
      && path[d] != '.' && path[d + s] == '.'
      && (forall j :: d <= j < |path| ==> path[j] != '/')
      && (forall j :: d + s < j < |path| ==> path[j] != '.')
  {
    var path, d, s := dir + stem + "." + ext, |dir|, |stem|;
    if d > 0 {
      assert path[d - 1] == dir[d - 1];
    }
    assert path[d] == stem[0];
    forall j | d <= j < |path|
      ensures path[j] != '/' && (d + s < j ==> path[j] != '.')
    {
      if j < d + s {
        assert path[j] == stem[j - d];
      } else if j > d + s {
        assert path[j] == ext[j - d - s - 1];
      }
    }
  }

  /** A path whose file name starts at `d`, does not start with '.', and has its
    * last '.' at `d + s`, has the extension from that '.' on. */
  lemma ExtensionOfPath(path: string, d: int, s: int)
    requires 0 <= d && 0 < s && d + s < |path|
    requires d == 0 || path[d - 1] == '/'
    requires forall j :: d <= j < |path| ==> path[j] != '/'
    requires path[d] != '.' && path[d + s] == '.'
    requires forall j :: d + s < j < |path| ==> path[j] != '.'
    ensures Extension(path) == path[d + s..]
  {
    FileNameAt(path, d);
    var name := path[d..];
    forall j | s < j < |name|
      ensures name[j] != '.'
    {
      assert name[j] == path[d + j];
    }
    assert name[0] == path[d] && name[s] == path[d + s];
    NameDot(name, s);
    assert name[s..] == path[d + s..];
  }

  /** The file name starts after the last '/', here just before `d`. */
  lemma FileNameAt(path: string, d: int)
    requires 0 <= d <= |path| && (d == 0 || path[d - 1] == '/')
    requires forall j :: d <= j < |path| ==> path[j] != '/'
    ensures FileName(path) == path[d..]
  {
    LastIndexOfIs(path, '/', d - 1);
  }

  /** A file name that does not start with '.' and whose last '.' is at `s`
    * is neither "." nor "..", and its extension starts at `s`. */
  lemma NameDot(name: string, s: int)
    requires 0 < s < |name| && name[0] != '.' && name[s] == '.'
    requires forall j :: s < j < |name| ==> name[j] != '.'
    ensures name != "." && name != ".." && LastIndexOf(name, '.') == s
  {
    assert name != "." && name != ".." by {
      assert "."[0] == '.' && ".."[0] == '.';
    }
    LastIndexOfIs(name, '.', s);
  }

  /** A hidden file `dir + "." + ext` has no extension, so it is never saved. */
  lemma HiddenFileUnsupported(dir: string, ext: string)
    requires DirPart(dir)
    requires forall j :: 0 <= j < |ext| ==> ext[j] != '/' && ext[j] != '.'
    ensures Extension(dir + "." + ext) == ""
    ensures SaveFormat(dir + "." + ext) == Unsupported
  {
    var path, d := dir + "." + ext, |dir|;
    if d > 0 {
      assert path[d - 1] == dir[d - 1];
    }
    forall j | d < j < |path|
      ensures path[j] != '/' && path[j] != '.'
    {
      assert path[j] == ext[j - d - 1];
    }
    HiddenPath(path, d);
    assert Lowered("") == "";
  }

  /** A path whose file name starts at `d` with its only '.' has no extension. */
  lemma HiddenPath(path: string, d: int)
    requires 0 <= d < |path| && (d == 0 || path[d - 1] == '/') && path[d] == '.'
    requires forall j :: d < j < |path| ==> path[j] != '/' && path[j] != '.'
    ensures Extension(path) == ""
  {
    LastIndexOfIs(path, '/', d - 1);
    var name := path[d..];
    assert FileName(path) == name;
    LastIndexOfIs(name, '.', 0);
  }

  /** Extensions are compared case-insensitively: `dir + stem + "." + ext` is
    * saved as a PNG for every `ext` that lower-cases to "png", such as "PNG". */
  lemma UpperCaseExtension(dir: string, stem: string, ext: string)
    requires DirPart(dir) && |stem| > 0
    requires forall j :: 0 <= j < |stem| ==> stem[j] != '/' && stem[j] != '.'
    requires Lowered(ext) == "png"
    ensures SaveFormat(dir + stem + "." + ext) == Png
  {
    forall j | 0 <= j < |ext|
      ensures ext[j] != '/' && ext[j] != '.'
    {
      assert Lowered(ext)[j] == LowerChar(ext[j]);
    }
    ExtensionOfName(dir, stem, ext);
    LoweredDot(ext);
    PngFormat(dir + stem + "." + ext, "." + ext);
  }

  /** Lower-casing keeps the leading '.'. */
  lemma LoweredDot(ext: string)
    requires Lowered(ext) == "png"
    ensures Lowered("." + ext) == ".png"
  {
    var l := Lowered("." + ext);
    forall i | 1 <= i < 4
      ensures l[i] == ".png"[i]
    {
      assert ("." + ext)[i] == ext[i - 1];
      assert Lowered(ext)[i - 1] == LowerChar(ext[i - 1]);
    }
  }

  /** A path whose extension lower-cases to ".png" is saved as a PNG. */
  lemma PngFormat(path: string, e: string)
    requires Extension(path) == e && Lowered(e) == ".png"
    ensures SaveFormat(path) == Png
  {
  }
}
