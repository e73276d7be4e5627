/** Modelling helpers that every module shares. Floats are modelled as reals. The
  * library's transcendental functions are passed in as parameters, and each one
  * carries only the axioms the code relies on. */
module Numerics {

  /** `sqrt` behaves as the real square root on non-negative arguments. */
  ghost predicate IsSqrt(sqrt: real -> real) {
    forall x: real :: 0.0 <= x ==> 0.0 <= sqrt(x) && sqrt(x) * sqrt(x) == x
  }

  lemma SqrtZero(sqrt: real -> real, x: real)
    requires IsSqrt(sqrt) && 0.0 <= x
    ensures sqrt(x) == 0.0 <==> x == 0.0
  {
    assert 0.0 <= sqrt(x) && sqrt(x) * sqrt(x) == x;
    if x == 0.0 {
      SquaresOrdered(sqrt(x), 0.0);
    }
  }

  /** A real whose square is 0 is 0. */
  lemma SquareZero(s: real)
    requires s * s == 0.0
    ensures s == 0.0
  {
    var a := if s < 0.0 then -s else s;
    assert a * a == s * s;
    SquaresOrdered(a, 0.0);
  }

  lemma SqrtOne(sqrt: real -> real)
    requires IsSqrt(sqrt)
    ensures sqrt(1.0) == 1.0
  {
    var s := sqrt(1.0);
    assert s >= 0.0 && s * s == 1.0;
    SquaresOrdered(s, 1.0);
    SquaresOrdered(1.0, s);
  }

  /** For non-negative p and q, p*p <= q*q gives p <= q. */
  lemma SquaresOrdered(p: real, q: real)
    requires 0.0 <= p && 0.0 <= q && p * p <= q * q
    ensures p <= q
  {
    assert (q - p) * (q + p) == q * q - p * p;
    if q + p != 0.0 {
      assert q + p > 0.0;
      assert (q - p) * (q + p) >= 0.0;
    }
  }

  lemma SqrtMonotone(sqrt: real -> real, a: real, b: real)
    requires IsSqrt(sqrt) && 0.0 <= a <= b
    ensures sqrt(a) <= sqrt(b)
  {
    assert sqrt(a) >= 0.0 && sqrt(a) * sqrt(a) == a;
    assert sqrt(b) >= 0.0 && sqrt(b) * sqrt(b) == b;
    SquaresOrdered(sqrt(a), sqrt(b));
  }

  /** Products of numbers in [0, 1] stay in [0, 1]. */
  lemma UnitProduct(a: real, b: real)
    requires 0.0 <= a <= 1.0 && 0.0 <= b <= 1.0
    ensures 0.0 <= a * b <= 1.0
    ensures a * b <= a && a * b <= b
  {
    assert 0.0 <= a * b;
    assert a * b <= b;
    assert a * b <= a;
  }

  lemma NonNegProduct(a: real, b: real)
    requires 0.0 <= a && 0.0 <= b
    ensures 0.0 <= a * b
  {
  }

  /** C and C++ convert a floating value to `int` by truncating toward zero. */
  function Trunc(r: real): (n: int)
    ensures 0.0 <= r ==> n as real <= r < n as real + 1.0
    ensures r < 0.0 ==> n as real - 1.0 < r <= n as real
  {
    if 0.0 <= r then r.Floor else -((-r).Floor)
  }

  /** Storing an `int` into an `unsigned char` keeps it modulo 256. */
  function UnsignedChar(n: int): (b: int)
    ensures 0 <= b < 256
    ensures (n - b) % 256 == 0
    ensures 0 <= n < 256 ==> b == n
  {
    n % 256
  }

  /** Storing a number into a JavaScript `Uint8ClampedArray`: clamp to [0, 255],
    * then round to the nearest integer, ties to even. */
  function Uint8Clamp(r: real): (b: int)
    ensures 0 <= b <= 255
    ensures 0.0 <= r <= 255.0 ==> r - 0.5 <= b as real <= r + 0.5
    ensures r <= 0.0 ==> b == 0
    ensures 255.0 <= r ==> b == 255
  {
    if r <= 0.0 then 0
    else if 255.0 <= r then 255
    else
      var f := r.Floor;
      if f as real + 0.5 < r then f + 1
      else if r < f as real + 0.5 then f
      else if f % 2 == 0 then f else f + 1
  }

  /** `pow(x, 5)` over the reals. */
  function Pow5(x: real): (p: real)
    ensures 0.0 <= x <= 1.0 ==> 0.0 <= p <= 1.0
  {
    if 0.0 <= x <= 1.0 then
      UnitProduct(x, x);
      UnitProduct(x * x, x);
      UnitProduct(x * x * x, x);
      UnitProduct(x * x * x * x, x);
      x * x * x * x * x
    else
      x * x * x * x * x
  }

  function Min(a: real, b: real): (r: real)
    ensures r <= a && r <= b && (r == a || r == b)
  {
    if b < a then b else a
  }

  function Max(a: real, b: real): (r: real)
    ensures a <= r && b <= r && (r == a || r == b)
  {
    if a < b then b else a
  }

  /** The row-major index `px + py * w` of a pixel gives its coordinates back as
    * remainder and quotient. */
  lemma PixelIndex(px: int, py: int, w: int)
    requires 0 <= px < w && 0 <= py
    ensures (px + py * w) % w == px && (px + py * w) / w == py
  {
    var i := px + py * w;
    var q, r := i / w, i % w;
    assert i == w * q + r && 0 <= r < w;
    assert (q - py) * w == px - r;
    if q - py >= 1 {
      MultipleAtLeast(q - py, w);
      assert false;
    } else if q - py <= -1 {
      MultipleAtLeast(py - q, w);
      assert false;
    }
  }

  lemma MulSucc(a: int, w: int)
    ensures (a + 1) * w == a * w + w
  {
  }

  lemma MulNonneg(a: int, w: int)
    requires 0 <= a && 0 <= w
    ensures 0 <= a * w
  {
  }

  lemma MulAdd(a: int, b: int, w: int)
    ensures (a + b) * w == a * w + b * w
  {
  }

  lemma MultipleAtLeast(k: int, w: int)
    requires 1 <= k && 0 <= w
    ensures k * w >= w
  {
    assert k * w == (k - 1) * w + w;
  }

  /** Distinct in-range pixels have distinct row-major indices. */
  lemma PixelIndexInjective(x1: int, y1: int, x2: int, y2: int, w: int)
    requires 0 <= x1 < w && 0 <= y1 && 0 <= x2 < w && 0 <= y2
    requires x1 + y1 * w == x2 + y2 * w
    ensures x1 == x2 && y1 == y2
  {
    PixelIndex(x1, y1, w);
    PixelIndex(x2, y2, w);
  }

  /** C's `tolower` in the default locale: only 'A'..'Z' change. */
  function LowerChar(c: char): (r: char)
    ensures 'A' <= c <= 'Z' ==> r as int == c as int + 32
    ensures !('A' <= c <= 'Z') ==> r == c
    ensures !('A' <= r <= 'Z')
  {
    if 'A' <= c <= 'Z' then (c as int + 32) as char else c
  }

  /** A cell `(x, y)` of a `w` by `h` grid has row-major index `x + y * w` in
    * `[0, w * h)`. */
  lemma IndexInGrid(x: int, y: int, w: int, h: int)
    requires 0 <= x < w && 0 <= y < h
    ensures 0 <= x + y * w < w * h
  {
    MultipleAtLeast(h - y, w);
    assert (h - y) * w == h * w - y * w;
  }

  /** An index `k` in `[0, w * h)` of a `w` wide grid names cell
    * `(k % w, k / w)`, which lies in the grid. */
  lemma CellOfIndex(k: int, w: int, h: int)
    requires 0 < w && 0 <= k < w * h
    ensures 0 <= k % w < w && 0 <= k / w < h
    ensures k == k % w + (k / w) * w
  {
    if k / w >= h {
      MultipleAtLeast(k / w - h + 1, w);
      assert false;
    }
  }

  /** A string with every character passed through `tolower`. */
  function Lowered(s: string): (r: string)
    ensures |r| == |s|
    ensures forall i :: 0 <= i < |s| ==> r[i] == LowerChar(s[i])
  {
    seq(|s|, i requires 0 <= i < |s| => LowerChar(s[i]))
  }
}
