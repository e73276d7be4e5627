/** rcl/perlin.h: Perlin noise tables and lookups of the WebAssembly port. The
  * draws of `frand()` (a float in [0, 1]: `rand() / RAND_MAX`, rcl/utils.h) are
  * passed in as sequences, one entry per call in the order the loops make
  * them. */
module RclPerlin {
  import opened Numerics
  import opened RclVec3
  import V = CoreVector3

  // ------------------------------------------------------------ permute

  /** `floor(frand() * (i + 1))`, the swap target the source computes. */
  function Target(u: real, i: nat): int {
    (u * (i + 1) as real).Floor
  }

  /** A draw below 1 gives a target in [0, i], where the swap is in bounds. */
  lemma TargetInRange(u: real, i: nat)
    requires 0.0 <= u < 1.0
    ensures 0 <= Target(u, i) <= i
  {
    var m := (i + 1) as real;
    ProductBelow(u, m, u * m);
  }

  lemma ProductBelow(u: real, m: real, x: real)
    requires 0.0 <= u < 1.0 && 0.0 < m && x == u * m
    ensures 0.0 <= x < m
  {
    assert (1.0 - u) * m > 0.0;
  }

  /** `frand()` returns exactly 1 when `rand()` returns `RAND_MAX`; the target is
    * then `i + 1`, and on the first iteration (`i = n - 1`) `ret[target]` is
    * `ret[n]`, one past the end. */
  lemma TargetOnePastEnd(n: nat)
    requires 0 < n
    ensures Target(1.0, n - 1) == n
  {
  }

  /** The target clamped to `i`: the swap the shuffle evidently intends, in
    * bounds for every draw in [0, 1] and equal to `Target` for every draw
    * below 1. */
  function SwapTarget(u: real, i: nat): (t: int)
    requires 0.0 <= u <= 1.0
    ensures 0 <= t <= i
    ensures u < 1.0 ==> t == Target(u, i)
  {
    if u < 1.0 then
      TargetInRange(u, i);
      Target(u, i)
    else
      i
  }

  /** `swap(s[i], s[j])` on a sequence. */
  function Swap(s: seq<int>, i: int, j: int): (r: seq<int>)
    requires 0 <= i < |s| && 0 <= j < |s|
    ensures |r| == |s| && r[i] == s[j] && r[j] == s[i]
  {
    s[i := s[j]][j := s[i]]
  }

  /** A swap leaves every other cell alone. */
  lemma SwapKeepsOthers(s: seq<int>, i: int, j: int, k: int)
    requires 0 <= i < |s| && 0 <= j < |s| && 0 <= k < |s| && k != i && k != j
    ensures Swap(s, i, j)[k] == s[k]
  {
  }

  /** A swap only reorders. */
  lemma SwapPermutes(s: seq<int>, i: int, j: int)
    requires 0 <= i < |s| && 0 <= j < |s|
    ensures multiset(Swap(s, i, j)) == multiset(s)
  {
  }

  predicate Draws(rand: seq<real>) {
    forall t :: 0 <= t < |rand| ==> 0.0 <= rand[t] <= 1.0
  }

  /** The swap target of every iteration: iteration `k` swaps cell `k` with
    * cell `Targets(rand)[k]`, which lies in [0, k]. */
  function Targets(rand: seq<real>): (t: seq<int>)
    requires Draws(rand)
    ensures |t| == |rand| && InRange(t)
  {
    seq(|rand|, k requires 0 <= k < |rand| => SwapTarget(rand[k], k))
  }

  /** Every target is at or before its own iteration's cell. */
  predicate InRange(targets: seq<int>) {
    forall k :: 0 <= k < |targets| ==> 0 <= targets[k] <= k
  }

  /** The iterations `i - 1` down to 0 of the shuffle with the given targets,
    * applied to `s`. */
  function ShuffledBy(s: seq<int>, targets: seq<int>, i: nat): (r: seq<int>)
    requires i <= |s| && |targets| == |s| && InRange(targets)
    ensures |r| == |s|
    decreases i
  {
    if i == 0 then s
    else ShuffledBy(Swap(s, i - 1, targets[i - 1]), targets, i - 1)
  }

  /** The iterations `i - 1` down to 0 of the shuffle, applied to `s`. */
  function Shuffled(s: seq<int>, rand: seq<real>, i: nat): (r: seq<int>)
    requires i <= |s| && |rand| == |s| && Draws(rand)
    ensures |r| == |s|
  {
    ShuffledBy(s, Targets(rand), i)
  }

  /** Shuffling only reorders: it yields a permutation of its input. */
  lemma ShuffledPermutes(s: seq<int>, rand: seq<real>, i: nat)
    requires i <= |s| && |rand| == |s| && Draws(rand)
    ensures multiset(Shuffled(s, rand, i)) == multiset(s)
  {
    ShuffledByPermutes(s, Targets(rand), i);
  }

  lemma {:induction false} ShuffledByPermutes(s: seq<int>, targets: seq<int>, i: nat)
    requires i <= |s| && |targets| == |s| && InRange(targets)
    ensures multiset(ShuffledBy(s, targets, i)) == multiset(s)
    decreases i
  {
    if i > 0 {
      var t := Swap(s, i - 1, targets[i - 1]);
      ShuffledByPermutes(t, targets, i - 1);
      SwapPermutes(s, i - 1, targets[i - 1]);
    }
  }

  /** Cells the shuffle has not reached keep their entries. */
  lemma ShuffledKeepsTail(s: seq<int>, rand: seq<real>, i: nat, k: int)
    requires i <= |s| && |rand| == |s| && Draws(rand) && i <= k < |s|
    ensures Shuffled(s, rand, i)[k] == s[k]
  {
    ShuffledByKeepsTail(s, Targets(rand), i, k);
  }

  lemma {:induction false} ShuffledByKeepsTail(s: seq<int>, targets: seq<int>, i: nat, k: int)
    requires i <= |s| && |targets| == |s| && InRange(targets) && i <= k < |s|
    ensures ShuffledBy(s, targets, i)[k] == s[k]
    decreases i
  {
    if i > 0 {
      var t := Swap(s, i - 1, targets[i - 1]);
      ShuffledByKeepsTail(t, targets, i - 1, k);
      SwapKeepsOthers(s, i - 1, targets[i - 1], k);
    }
  }

  /** `permute(ret, n)`: for `i` from `n - 1` down to 0, swap `ret[i]` with the
    * target cell; `rand[i]` is the draw of iteration `i`. The swap target is the
    * clamped one (see `SwapTarget`). */
  method Permute(ret: array<int>, rand: seq<real>)
    requires |rand| == ret.Length && Draws(rand)
    modifies ret
    ensures ret[..] == Shuffled(old(ret[..]), rand, ret.Length)
    ensures multiset(ret[..]) == multiset(old(ret[..]))
  {
    ghost var orig := ret[..];
    var i := ret.Length;
    while i > 0
      invariant 0 <= i <= ret.Length
      invariant Shuffled(ret[..], rand, i) == Shuffled(orig, rand, ret.Length)
    {
      var target := SwapTarget(rand[i - 1], i - 1);
      ghost var before := ret[..];
      ret[i - 1], ret[target] := ret[target], ret[i - 1];
      assert ret[..] == Swap(before, i - 1, target);
      assert Targets(rand)[i - 1] == target;
      i := i - 1;
    }
    ShuffledPermutes(orig, rand, ret.Length);
  }

  /** `0, 1, ..., n - 1`. */
  function Iota(n: nat): (s: seq<int>)
    ensures |s| == n && forall k :: 0 <= k < n ==> s[k] == k
  {
    seq(n, k => k)
  }

  /** `generatePerm()`: 0..255 in a shuffled order. */
  method GeneratePerm(rand: seq<real>) returns (ret: array<int>)
    requires |rand| == 256 && Draws(rand)
    ensures fresh(ret) && ret.Length == 256
    ensures ret[..] == Shuffled(Iota(256), rand, 256)
    ensures multiset(ret[..]) == multiset(Iota(256))
  {
    ret := new int[256];
    for i := 0 to 256
      invariant forall k :: 0 <= k < i ==> ret[k] == k
    {
      ret[i] := i;
    }
    assert ret[..] == Iota(256);
    Permute(ret, rand);
  }

  /** A permutation of 0..255 holds only indices into a 256-entry table. */
  lemma PermutationInRange(s: seq<int>, k: int)
    requires multiset(s) == multiset(Iota(256)) && 0 <= k < |s|
    ensures 0 <= s[k] < 256
  {
    assert s[k] in multiset(s);
    assert s[k] in Iota(256);
  }

  predicate IsTable(s: seq<int>) {
    |s| == 256 && forall k :: 0 <= k < 256 ==> 0 <= s[k] < 256
  }

  /** A permutation of 0..255 is a table: every generated permutation is. */
  lemma PermutationIsTable(s: seq<int>)
    requires multiset(s) == multiset(Iota(256))
    ensures IsTable(s)
  {
    assert |s| == |multiset(s)| == 256;
    forall k | 0 <= k < 256 {
      PermutationInRange(s, k);
    }
  }

  // ------------------------------------------------------------ generatePerlin

  /** `-1 + 2 * vec3(a, b, c)`: a draw moved from [0, 1]^3 to [-1, 1]^3. */
  function Spread(d: Vector3): Vector3 {
    AddScalar(Scale(d, 2.0), -1.0)
  }

  /** The one draw the spread sends to the zero vector, which `unit` cannot
    * normalise. */
  const Centre := V.Vector3(0.5, 0.5, 0.5)

  lemma SpreadZero(d: Vector3)
    ensures Spread(d) == V.Zero <==> d == Centre
  {
  }

  /** `unit(-1 + 2 * vec3(a, b, c))`: the direction of a spread draw. */
  function Direction(d: Vector3, sqrt: real -> real): (r: Vector3)
    requires IsSqrt(sqrt) && d != Centre
    ensures SqLen(r) == 1.0
    ensures r == V.Unit(Spread(d), sqrt)
  {
    SpreadZero(d);
    assert Length(Spread(d), sqrt) != 0.0;
    Unit(Spread(d), sqrt)
  }

  /** `generatePerlin()`: 256 unit vectors, each the direction of a spread draw.
    * `draws[i]` holds the three `frand()` results of entry `i`. */
  method GeneratePerlin(draws: seq<Vector3>, sqrt: real -> real) returns (ret: array<Vector3>)
    requires IsSqrt(sqrt) && |draws| == 256
    requires forall i :: 0 <= i < 256 ==> draws[i] != Centre
    ensures fresh(ret) && ret.Length == 256
    ensures forall i :: 0 <= i < 256 ==> ret[i] == Direction(draws[i], sqrt)
  {
    ret := new Vector3[256];
    for i := 0 to 256
      invariant forall k :: 0 <= k < i ==> ret[k] == Direction(draws[k], sqrt)
    {
      ret[i] := Direction(draws[i], sqrt);
    }
  }

  // ------------------------------------------------------------ interpTrilinear

  /** `u * u * (3 - 2 * u)`, the smoothstep of the fractional part. */
  function Smooth(u: real): real {
    u * u * (3.0 - 2.0 * u)
  }

  /** Smoothstep maps [0, 1] into [0, 1] and fixes both ends. */
  lemma SmoothInUnit(u: real)
    requires 0.0 <= u <= 1.0
    ensures 0.0 <= Smooth(u) <= 1.0
    ensures u == 0.0 ==> Smooth(u) == 0.0
    ensures u == 1.0 ==> Smooth(u) == 1.0
  {
    var s, t := u * u, 3.0 - 2.0 * u;
    NonNegProduct(u, u);
    NonNegProduct(s, t);
    var a, b := (1.0 - u) * (1.0 - u), 1.0 + 2.0 * u;
    NonNegProduct(1.0 - u, 1.0 - u);
    NonNegProduct(a, b);
    assert 1.0 - s * t == a * b;
  }

  /** The weight of corner `i` (0 or 1) along one axis, `i * s + (1 - i) * (1 - s)`:
    * `1 - s` for corner 0 and `s` for corner 1. */
  function Weight(i: int, s: real): (r: real)
    ensures 0 <= i <= 1 ==> r == i as real * s + (1 - i) as real * (1.0 - s)
  {
    if i == 0 then
      assert (1 - i) as real == 1.0 && i as real * s == 0.0;
      1.0 - s
    else
      assert i == 1 ==> (1 - i) as real * (1.0 - s) == 0.0 && i as real * s == s;
      s
  }

  /** The offset `u - i` of the point from corner `i` along one axis. */
  function Offset(u: real, i: int): (r: real)
    ensures (i == 0 || i == 1) ==> r == u - i as real
  {
    if i == 0 then u else u - 1.0
  }

  /** The corners are numbered `4 * i + 2 * j + k` in loop order; these read
    * `i`, `j` and `k` back. */
  function BitI(n: int): int { if n < 4 then 0 else 1 }
  function BitJ(n: int): int { if n == 2 || n == 3 || n == 6 || n == 7 then 1 else 0 }
  function BitK(n: int): int { if n == 1 || n == 3 || n == 5 || n == 7 then 1 else 0 }

  lemma Decode(i: int, j: int, k: int)
    requires 0 <= i < 2 && 0 <= j < 2 && 0 <= k < 2
    ensures BitI(4 * i + 2 * j + k) == i && BitJ(4 * i + 2 * j + k) == j && BitK(4 * i + 2 * j + k) == k
  {
  }

  /** The term `interpTrilinear` adds for corner `n`: the three axis weights times
    * `dot(c[i][j][k], (u - i, v - j, w - k))`. */
  function Term(c: seq<Vector3>, u: real, v: real, w: real, n: int): real
    requires |c| == 8 && 0 <= n < 8
  {
    CornerTerm(Smooth(u), Smooth(v), Smooth(w), c[n], u, v, w, BitI(n), BitJ(n), BitK(n))
  }

  /** The term of corner `(i, j, k)` holding `cv`, given the smoothed fractions. */
  function CornerTerm(uu: real, vv: real, ww: real, cv: Vector3, u: real, v: real, w: real, i: int, j: int, k: int): real {
    Weight(i, uu) * Weight(j, vv) * Weight(k, ww) * V.Dot(cv, V.Vector3(Offset(u, i), Offset(v, j), Offset(w, k)))
  }

  /** The sum of the terms of the first `n` corners. */
  function Partial(c: seq<Vector3>, u: real, v: real, w: real, n: int): real
    requires |c| == 8 && 0 <= n <= 8
  {
    if n == 0 then 0.0 else Partial(c, u, v, w, n - 1) + Term(c, u, v, w, n - 1)
  }

  /** The value `interpTrilinear` returns. */
  function Trilinear(c: seq<Vector3>, u: real, v: real, w: real): real
    requires |c| == 8
  {
    Partial(c, u, v, w, |c|)
  }

  /** `interpTrilinear(c, u, v, w)`: the three nested loops add the eight terms;
    * `c[i][j][k]` is `c[4 * i + 2 * j + k]`. */
  method InterpTrilinear(c: seq<Vector3>, u: real, v: real, w: real) returns (ret: real)
    requires |c| == 8
    ensures ret == Trilinear(c, u, v, w)
  {
    var uu := Smooth(u);
    var vv := Smooth(v);
    var ww := Smooth(w);
    ret := 0.0;
    for i := 0 to 2
      invariant ret == Partial(c, u, v, w, 4 * i)
    {
      for j := 0 to 2
        invariant ret == Partial(c, u, v, w, 4 * i + 2 * j)
      {
        for k := 0 to 2
          invariant ret == Partial(c, u, v, w, 4 * i + 2 * j + k)
        {
          var n := 4 * i + 2 * j + k;
          PartialStep(c, u, v, w, i, j, k);
          ret := ret + CornerTerm(uu, vv, ww, c[n], u, v, w, i, j, k);
        }
      }
    }
  }

  lemma PartialStep(c: seq<Vector3>, u: real, v: real, w: real, i: int, j: int, k: int)
    requires |c| == 8 && 0 <= i < 2 && 0 <= j < 2 && 0 <= k < 2
    ensures Partial(c, u, v, w, 4 * i + 2 * j + k + 1) == Partial(c, u, v, w, 4 * i + 2 * j + k)
      + CornerTerm(Smooth(u), Smooth(v), Smooth(w), c[4 * i + 2 * j + k], u, v, w, i, j, k)
  {
    Decode(i, j, k);
  }

  /** The eight blending weights sum to 1 (whatever the smoothed fractions). */
  lemma WeightsSumToOne(a: real, b: real, d: real)
    ensures Weight(0, a) * Weight(0, b) * Weight(0, d) + Weight(0, a) * Weight(0, b) * Weight(1, d)
          + Weight(0, a) * Weight(1, b) * Weight(0, d) + Weight(0, a) * Weight(1, b) * Weight(1, d)
          + Weight(1, a) * Weight(0, b) * Weight(0, d) + Weight(1, a) * Weight(0, b) * Weight(1, d)
          + Weight(1, a) * Weight(1, b) * Weight(0, d) + Weight(1, a) * Weight(1, b) * Weight(1, d) == 1.0
  {
    var x, y, z := 1.0 - a, 1.0 - b, 1.0 - d;
    assert Weight(0, a) == x && Weight(1, a) == a;
    assert Weight(0, b) == y && Weight(1, b) == b;
    assert Weight(0, d) == z && Weight(1, d) == d;
    calc {
      x * y * z + x * y * d + x * b * z + x * b * d + a * y * z + a * y * d + a * b * z + a * b * d;
      x * y * (z + d) + x * b * (z + d) + a * y * (z + d) + a * b * (z + d);
      x * y + x * b + a * y + a * b;
      x * (y + b) + a * (y + b);
      x + a;
    }
  }

  /** At a lattice point (all fractions zero) only corner (0, 0, 0) has weight,
    * and its offset is the zero vector: the noise vanishes there. */
  lemma LatticePointZero(c: seq<Vector3>)
    requires |c| == 8
    ensures Trilinear(c, 0.0, 0.0, 0.0) == 0.0
  {
    PartialAtLattice(c, 8);
  }

  lemma {:induction false} PartialAtLattice(c: seq<Vector3>, n: int)
    requires |c| == 8 && 0 <= n <= 8
    ensures Partial(c, 0.0, 0.0, 0.0, n) == 0.0
  {
    if n > 0 {
      PartialAtLattice(c, n - 1);
      TermAtLattice(c, n - 1);
    }
  }

  lemma TermAtLattice(c: seq<Vector3>, n: int)
    requires |c| == 8 && 0 <= n < 8
    ensures Term(c, 0.0, 0.0, 0.0, n) == 0.0
  {
    var i, j, k := BitI(n), BitJ(n), BitK(n);
    var s := Smooth(0.0);
    assert s == 0.0;
    var wi, wj, wk := Weight(i, s), Weight(j, s), Weight(k, s);
    var off := V.Vector3(Offset(0.0, i), Offset(0.0, j), Offset(0.0, k));
    var e := V.Dot(c[n], off);
    assert Term(c, 0.0, 0.0, 0.0, n) == CornerTerm(s, s, s, c[n], 0.0, 0.0, 0.0, i, j, k) == wi * wj * wk * e;
    if n == 0 {
      assert off == V.Zero;
      V.ZeroAbsorbs(c[0], 0.0);
    }
    ZeroFactor(wi, wj, wk, e);
  }

  lemma ZeroFactor(a: real, b: real, d: real, e: real)
    requires a == 0.0 || b == 0.0 || d == 0.0 || e == 0.0
    ensures a * b * d * e == 0.0
  {
  }

  // ------------------------------------------------------------ noise

  /** `x & 255` for a 32-bit `int`: the low eight bits of its two's complement,
    * which is `x` modulo 256 also for negative `x`. */
  function Low8(x: int): (r: int)
    ensures 0 <= r < 256
    ensures r == x % 256
  {
    x % 256
  }

  /** `a ^ b` on values in [0, 255]. */
  function Xor(a: int, b: int): (r: int)
    requires 0 <= a < 256 && 0 <= b < 256
    ensures 0 <= r < 256
  {
    XorBits(a, b, 8)
  }

  /** The exclusive or of the low `n` bits of `a` and `b`, lowest bit first. */
  function XorBits(a: nat, b: nat, n: nat): (r: nat)
    ensures r < Two(n)
  {
    if n == 0 then 0
    else (if a % 2 == b % 2 then 0 else 1) + 2 * XorBits(a / 2, b / 2, n - 1)
  }

  function Two(n: nat): (r: nat)
    ensures 0 < r
  {
    if n == 0 then 1 else 2 * Two(n - 1)
  }

  /** The `ranvec` index of corner `(di, dj, dk)` of the cell at `(i, j, k)`. */
  function Hash(px: seq<int>, py: seq<int>, pz: seq<int>, i: int, j: int, k: int): (h: int)
    requires IsTable(px) && IsTable(py) && IsTable(pz)
    ensures 0 <= h < 256
  {
    Xor(Xor(px[Low8(i)], py[Low8(j)]), pz[Low8(k)])
  }

  /** `c[di][dj][dk]`, numbered `4 * di + 2 * dj + dk`. */
  function Lattice(ranvec: seq<Vector3>, px: seq<int>, py: seq<int>, pz: seq<int>, i: int, j: int, k: int): (c: seq<Vector3>)
    requires |ranvec| == 256 && IsTable(px) && IsTable(py) && IsTable(pz)
    ensures |c| == 8
    ensures forall n :: 0 <= n < 8 ==> c[n] == ranvec[Hash(px, py, pz, i + BitI(n), j + BitJ(n), k + BitK(n))]
  {
    seq(8, n requires 0 <= n < 8 => ranvec[Hash(px, py, pz, i + BitI(n), j + BitJ(n), k + BitK(n))])
  }

  /** Corner `(di, dj, dk)` of the lattice is the `ranvec` entry its hash picks. */
  lemma LatticeAt(ranvec: seq<Vector3>, px: seq<int>, py: seq<int>, pz: seq<int>, i: int, j: int, k: int, di: int, dj: int, dk: int)
    requires |ranvec| == 256 && IsTable(px) && IsTable(py) && IsTable(pz)
    requires 0 <= di < 2 && 0 <= dj < 2 && 0 <= dk < 2
    ensures Lattice(ranvec, px, py, pz, i, j, k)[4 * di + 2 * dj + dk]
      == ranvec[Xor(Xor(px[Low8(i + di)], py[Low8(j + dj)]), pz[Low8(k + dk)])]
  {
    Decode(di, dj, dk);
  }

  /** `Perlin::noise(p)` on given tables. */
  function NoiseOf(ranvec: seq<Vector3>, px: seq<int>, py: seq<int>, pz: seq<int>, p: Vector3): real
    requires |ranvec| == 256 && IsTable(px) && IsTable(py) && IsTable(pz)
  {
    Trilinear(Lattice(ranvec, px, py, pz, p.x.Floor, p.y.Floor, p.z.Floor),
              p.x - p.x.Floor as real, p.y - p.y.Floor as real, p.z - p.z.Floor as real)
  }

  /** The fractional parts `interpTrilinear` receives lie in [0, 1). */
  lemma FractionsInUnit(p: Vector3)
    ensures 0.0 <= p.x - p.x.Floor as real < 1.0
    ensures 0.0 <= p.y - p.y.Floor as real < 1.0
    ensures 0.0 <= p.z - p.z.Floor as real < 1.0
  {
  }

  /** `turb(p, depth)`'s sum before `fabs`: octave `n` is `noise` at `2^n * p`,
    * weighted `0.5^n`. */
  function Octaves(noise: Vector3 -> real, p: Vector3, depth: nat): real {
    if depth == 0 then 0.0
    else Octaves(noise, p, depth - 1) + Power(0.5, depth - 1) * noise(V.Scale(p, Power(2.0, depth - 1)))
  }

  /** `noise` on fixed tables, as a function of the point alone. */
  function NoiseWith(ranvec: seq<Vector3>, px: seq<int>, py: seq<int>, pz: seq<int>): (f: Vector3 -> real)
    requires |ranvec| == 256 && IsTable(px) && IsTable(py) && IsTable(pz)
    ensures forall q :: f(q) == NoiseOf(ranvec, px, py, pz, q)
  {
    q => NoiseOf(ranvec, px, py, pz, q)
  }

  function Power(b: real, n: nat): real {
    if n == 0 then 1.0 else Power(b, n - 1) * b
  }

  /** One more turn of `turb`'s loop adds the next octave. */
  lemma OctavesStep(noise: Vector3 -> real, p: Vector3, n: nat, weight: real, value: real)
    requires weight == Power(0.5, n) && value == noise(V.Scale(p, Power(2.0, n)))
    ensures Octaves(noise, p, n + 1) == Octaves(noise, p, n) + weight * value
  {
  }

  lemma HalfStep(n: nat, weight: real)
    requires weight == Power(0.5, n)
    ensures weight * 0.5 == Power(0.5, n + 1)
  {
  }

  /** Doubling `2^n * p` gives `2^(n+1) * p`. */
  lemma PowerStep(p: Vector3, n: nat, q: Vector3)
    requires q == V.Scale(p, Power(2.0, n))
    ensures V.Scale(q, 2.0) == V.Scale(p, Power(2.0, n + 1))
  {
    ScaleTwice(p, Power(2.0, n), 2.0);
  }

  /** Doubling the point each octave scales it by the next power of two. */
  lemma ScaleTwice(p: Vector3, a: real, b: real)
    ensures V.Scale(V.Scale(p, a), b) == V.Scale(p, a * b)
  {
    assert p.x * a * b == p.x * (a * b);
    assert p.y * a * b == p.y * (a * b);
    assert p.z * a * b == p.z * (a * b);
  }

  /** `Perlin`: a table of 256 unit vectors and three permutations of 0..255. */
  class Perlin {
    const ranvec: array<Vector3>
    const permX: array<int>
    const permY: array<int>
    const permZ: array<int>

    predicate Valid()
      reads this, permX, permY, permZ
    {
      ranvec.Length == 256 && IsTable(permX[..]) && IsTable(permY[..]) && IsTable(permZ[..])
    }

    /** `Perlin()`: the four tables, each from its own draws. */
    constructor (draws: seq<Vector3>, randX: seq<real>, randY: seq<real>, randZ: seq<real>, sqrt: real -> real)
      requires IsSqrt(sqrt) && |draws| == 256
      requires forall i :: 0 <= i < 256 ==> draws[i] != Centre
      requires |randX| == 256 && Draws(randX) && |randY| == 256 && Draws(randY) && |randZ| == 256 && Draws(randZ)
      ensures Valid()
      ensures forall i :: 0 <= i < 256 ==> SqLen(ranvec[i]) == 1.0
      ensures permX[..] == Shuffled(Iota(256), randX, 256)
      ensures permY[..] == Shuffled(Iota(256), randY, 256)
      ensures permZ[..] == Shuffled(Iota(256), randZ, 256)
    {
      var rv := GeneratePerlin(draws, sqrt);
      var x := GeneratePerm(randX);
      var y := GeneratePerm(randY);
      var z := GeneratePerm(randZ);
      PermutationIsTable(x[..]);
      PermutationIsTable(y[..]);
      PermutationIsTable(z[..]);
      ranvec, permX, permY, permZ := rv, x, y, z;
    }

    /** `noise(p)`: the eight corner vectors gathered in nested loops, then
      * blended. */
    method Noise(p: Vector3) returns (r: real)
      requires Valid()
      ensures r == NoiseOf(ranvec[..], permX[..], permY[..], permZ[..], p)
    {
      var u := p.x - p.x.Floor as real;
      var v := p.y - p.y.Floor as real;
      var w := p.z - p.z.Floor as real;
      var i, j, k := p.x.Floor, p.y.Floor, p.z.Floor;
      ghost var rv, xs, ys, zs := ranvec[..], permX[..], permY[..], permZ[..];
      ghost var target := Lattice(rv, xs, ys, zs, i, j, k);
      var c := new Vector3[8];
      for di := 0 to 2
        invariant forall n :: 0 <= n < 4 * di ==> c[n] == target[n]
      {
        for dj := 0 to 2
            invariant forall n :: 0 <= n < 4 * di + 2 * dj ==> c[n] == target[n]
        {
          for dk := 0 to 2
                invariant forall n :: 0 <= n < 4 * di + 2 * dj + dk ==> c[n] == target[n]
          {
            LatticeAt(rv, xs, ys, zs, i, j, k, di, dj, dk);
            c[4 * di + 2 * dj + dk] := ranvec[Xor(Xor(permX[Low8(i + di)], permY[Low8(j + dj)]), permZ[Low8(k + dk)])];
          }
        }
      }
      assert c[..] == target;
      r := InterpTrilinear(c[..], u, v, w);
    }

    /** `turb(p, depth)`: the octaves summed in a loop that halves the weight and
      * doubles the point (`temp *= 2` on a local copy of `p`, held here as a
      * value), then `fabs`. */
    method Turb(p: Vector3, depth: int) returns (r: real)
      requires Valid()
      ensures 0.0 <= r
      ensures r == Abs(Octaves(NoiseWith(ranvec[..], permX[..], permY[..], permZ[..]), p, if depth < 0 then 0 else depth))
    {
      ghost var noise := NoiseWith(ranvec[..], permX[..], permY[..], permZ[..]);
      var accum := 0.0;
      var temp := p;
      var weight := 1.0;
      var i := 0;
      while i < depth
        invariant 0 <= i <= (if depth < 0 then 0 else depth)
        invariant temp == V.Scale(p, Power(2.0, i))
        invariant weight == Power(0.5, i)
        invariant accum == Octaves(noise, p, i)
      {
        var nz := Noise(temp);
        OctavesStep(noise, p, i, weight, nz);
        accum := accum + weight * nz;
        HalfStep(i, weight);
        weight := weight * 0.5;
        PowerStep(p, i, temp);
        temp := V.Scale(temp, 2.0);
        i := i + 1;
      }
      assert i == if depth < 0 then 0 else depth;
      r := Abs(accum);
    }
  }

  function Abs(a: real): (r: real)
    ensures 0.0 <= r && (r == a || r == -a)
  {
    if a < 0.0 then -a else a
  }
}
