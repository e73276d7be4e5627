/** broker.js: the page that hands out rendering work. `setupWork` cuts the
  * image into square tiles of `WORKSIZE` pixels (narrower at the right and
  * bottom edges), queues each tile twice, once for a quick preview pass with
  * sampling 0 and once for the full `SAMPLING` pass, and sorts the queue so the
  * preview pass comes first and, within a pass, tiles near the image centre
  * come first. `serverCheck` draws finished tiles, keeping per tile origin the
  * highest sampling drawn so far; in single mode `clientGetJob` hands the queue
  * out front first. The page's globals are the fields of a `Broker` object;
  * the canvas is the log of tiles drawn on it, and the job queue server is the
  * sequence of jobs it hands back. */
module Broker {
  import opened Wrappers
  import opened Numerics

  /** `WIDTH`, `HEIGHT`, `SAMPLING` and `WORKSIZE`. */
  const Width: int := 506 * 2
  const Height: int := 253 * 2
  const Sampling: int := 10000
  const WorkSize: int := 5

  /** The constants that shape the work, as one value so that the lemmas hold
    * for any image size and tile size. */
  datatype Layout = Layout(width: int, height: int, workSize: int, sampling: int)
  {
    predicate Valid() {
      0 < width && 0 < height && 0 < workSize && 0 < sampling
    }
  }

  /** One unit of work: a tile rectangle and the sampling to render it with. */
  datatype Block = Block(x: int, y: int, width: int, height: int, sampling: int)

  /** `Math.min(size, origin + WORKSIZE) - origin`: a full step, or what is left
    * before the edge. */
  function Extent(origin: int, size: int, step: int): (e: int)
    requires 0 <= origin < size && 0 < step
    ensures 1 <= e <= step
    ensures origin + e <= size
    ensures origin + e == size || e == step
  {
    (if size < origin + step then size else origin + step) - origin
  }

  /** The block `setupWork` pushes for origin `(x, y)` and the given sampling. */
  function Tile(L: Layout, x: int, y: int, sampling: int): Block
    requires L.Valid() && 0 <= x < L.width && 0 <= y < L.height
  {
    Block(x, y, Extent(x, L.width, L.workSize), Extent(y, L.height, L.workSize), sampling)
  }

  /** The blocks the inner loop pushes for row `y`, from column `x` on: each
    * origin twice, preview first. */
  function Row(L: Layout, y: int, x: int): seq<Block>
    requires L.Valid() && 0 <= x && 0 <= y < L.height
    decreases L.width - x
  {
    if x >= L.width then []
    else [Tile(L, x, y, 0), Tile(L, x, y, L.sampling)] + Row(L, y, x + L.workSize)
  }

  /** The blocks the outer loop pushes from row `y` on. */
  function Grid(L: Layout, y: int): seq<Block>
    requires L.Valid() && 0 <= y
    decreases L.height - y
  {
    if y >= L.height then [] else Row(L, y, 0) + Grid(L, y + L.workSize)
  }

  /** A block `setupWork` can produce: an origin on the `WORKSIZE` lattice
    * inside the image, the size `Tile` gives it and one of the two samplings. */
  predicate OnLattice(L: Layout, b: Block)
    requires L.Valid()
  {
    && 0 <= b.x < L.width && 0 <= b.y < L.height
    && b.x % L.workSize == 0 && b.y % L.workSize == 0
    && (b.sampling == 0 || b.sampling == L.sampling)
    && b == Tile(L, b.x, b.y, b.sampling)
  }

  predicate Distinct(s: seq<Block>) {
    forall i, j :: 0 <= i < j < |s| ==> s[i] != s[j]
  }

  /** Row `y` from lattice column `x` holds exactly the lattice blocks of that
    * row at or right of `x`, each once. */
  lemma {:induction false} RowMembers(L: Layout, y: int, x: int, b: Block)
    requires L.Valid() && 0 <= x && 0 <= y < L.height && x % L.workSize == 0 && y % L.workSize == 0
    ensures b in Row(L, y, x) <==> OnLattice(L, b) && b.y == y && x <= b.x
    decreases L.width - x
  {
    if x < L.width {
      var ws := L.workSize;
      assert (x + ws) % ws == 0 by { ModStep(x, ws); }
      RowMembers(L, y, x + ws, b);
      if OnLattice(L, b) && b.y == y && x <= b.x && b.x != x {
        LatticeGap(x, b.x, ws);
      }
    }
  }

  lemma {:induction false} RowDistinct(L: Layout, y: int, x: int)
    requires L.Valid() && 0 <= x && 0 <= y < L.height && x % L.workSize == 0 && y % L.workSize == 0
    ensures Distinct(Row(L, y, x))
    decreases L.width - x
  {
    if x < L.width {
      var ws := L.workSize;
      assert (x + ws) % ws == 0 by { ModStep(x, ws); }
      RowDistinct(L, y, x + ws);
      var head := [Tile(L, x, y, 0), Tile(L, x, y, L.sampling)];
      var rest := Row(L, y, x + ws);
      forall b | b in rest
        ensures b !in head
      {
        RowMembers(L, y, x + ws, b);
      }
      DistinctConcat(head, rest);
    }
  }

  /** The grid from lattice row `y` holds exactly the lattice blocks at or below
    * row `y`. */
  lemma {:induction false} GridMembers(L: Layout, y: int, b: Block)
    requires L.Valid() && 0 <= y && y % L.workSize == 0
    ensures b in Grid(L, y) <==> OnLattice(L, b) && y <= b.y
    decreases L.height - y
  {
    if y < L.height {
      var ws := L.workSize;
      assert (y + ws) % ws == 0 by { ModStep(y, ws); }
      GridMembers(L, y + ws, b);
      RowMembers(L, y, 0, b);
      if OnLattice(L, b) && y <= b.y && b.y != y {
        LatticeGap(y, b.y, ws);
      }
    }
  }

  lemma {:induction false} GridDistinct(L: Layout, y: int)
    requires L.Valid() && 0 <= y && y % L.workSize == 0
    ensures Distinct(Grid(L, y))
    decreases L.height - y
  {
    if y < L.height {
      var ws := L.workSize;
      assert (y + ws) % ws == 0 by { ModStep(y, ws); }
      GridDistinct(L, y + ws);
      RowDistinct(L, y, 0);
      forall b | b in Grid(L, y + ws)
        ensures b !in Row(L, y, 0)
      {
        GridMembers(L, y + ws, b);
        RowMembers(L, y, 0, b);
      }
      DistinctConcat(Row(L, y, 0), Grid(L, y + ws));
    }
  }

  /** Every origin is queued twice, so the grid has an even length. */
  lemma {:induction false} GridEven(L: Layout, y: int)
    requires L.Valid() && 0 <= y
    ensures |Grid(L, y)| % 2 == 0
    decreases L.height - y
  {
    if y < L.height {
      RowEven(L, y, 0);
      GridEven(L, y + L.workSize);
    }
  }

  lemma {:induction false} RowEven(L: Layout, y: int, x: int)
    requires L.Valid() && 0 <= x && 0 <= y < L.height
    ensures |Row(L, y, x)| % 2 == 0
    decreases L.width - x
  {
    if x < L.width {
      RowEven(L, y, x + L.workSize);
    }
  }

  lemma ModStep(x: int, ws: int)
    requires 0 < ws && 0 <= x && x % ws == 0
    ensures (x + ws) % ws == 0
  {
    var c := x / ws;
    assert x == c * ws + x % ws;
    assert x + ws == 0 + (c + 1) * ws;
    PixelIndex(0, c + 1, ws);
  }

  /** Two distinct multiples of `ws` are at least `ws` apart. */
  lemma LatticeGap(x: int, z: int, ws: int)
    requires 0 < ws && 0 <= x < z && x % ws == 0 && z % ws == 0
    ensures x + ws <= z
  {
    var p, q := x / ws, z / ws;
    assert x == p * ws + x % ws && z == q * ws + z % ws;
    assert z - x == (q - p) * ws;
    PositiveFactor(q - p, ws);
    MultipleAtLeast(q - p, ws);
  }

  lemma PositiveFactor(k: int, ws: int)
    requires 0 < ws && 0 < k * ws
    ensures 1 <= k
  {
  }

  lemma DistinctConcat(a: seq<Block>, b: seq<Block>)
    requires Distinct(a) && Distinct(b)
    requires forall e :: e in b ==> e !in a
    ensures Distinct(a + b)
  {
    var s := a + b;
    forall i, j | 0 <= i < j < |s|
      ensures s[i] != s[j]
    {
      if i < |a| && |a| <= j {
        assert s[j] == b[j - |a|] && s[j] in b;
        assert s[i] == a[i] && s[i] in a;
      } else if |a| <= i {
        assert s[i] == b[i - |a|] && s[j] == b[j - |a|];
      }
    }
  }

  /** In a sequence without repeats every element occurs once. */
  lemma {:induction false} DistinctOnce(s: seq<Block>, b: Block)
    requires Distinct(s)
    ensures multiset(s)[b] == if b in s then 1 else 0
  {
    if s != [] {
      assert s == [s[0]] + s[1..];
      assert Distinct(s[1..]) by {
        forall i, j | 0 <= i < j < |s| - 1
          ensures s[1..][i] != s[1..][j]
        {
          assert s[1..][i] == s[i + 1] && s[1..][j] == s[j + 1];
        }
      }
      DistinctOnce(s[1..], b);
      if b == s[0] {
        forall k | 0 <= k < |s| - 1
          ensures s[1..][k] != b
        {
          assert s[1..][k] == s[k + 1];
        }
      }
    }
  }

  /** Block `b` covers pixel `(px, py)`. */
  predicate Covers(b: Block, px: int, py: int) {
    b.x <= px < b.x + b.width && b.y <= py < b.y + b.height
  }

  /** The tile of the given sampling that pixel `(px, py)` belongs to. */
  function Owner(L: Layout, px: int, py: int, sampling: int): Block
    requires L.Valid() && 0 <= px < L.width && 0 <= py < L.height
  {
    Tile(L, px / L.workSize * L.workSize, py / L.workSize * L.workSize, sampling)
  }

  /** Pixel `(px, py)` is covered exactly once by the blocks of the given
    * sampling in `m`: its owner occurs once, and no other such block covers it. */
  predicate CoveredOnce(L: Layout, m: multiset<Block>, px: int, py: int, sampling: int)
    requires L.Valid() && 0 <= px < L.width && 0 <= py < L.height
  {
    && m[Owner(L, px, py, sampling)] == 1
    && forall b :: b in m && b.sampling == sampling && Covers(b, px, py) ==> b == Owner(L, px, py, sampling)
  }

  lemma RoundDown(p: int, ws: int)
    requires 0 <= p && 0 < ws
    ensures 0 <= p / ws * ws <= p < p / ws * ws + ws
    ensures (p / ws * ws) % ws == 0
  {
    var c := p / ws;
    assert p == c * ws + p % ws;
    assert 0 <= c;
    PixelIndex(0, c, ws);
    assert 0 + c * ws == p / ws * ws;
  }

  /** A lattice point `x` with `x <= p < x + ws` is `p` rounded down. */
  lemma LatticeCell(x: int, p: int, ws: int)
    requires 0 < ws && 0 <= x <= p < x + ws && x % ws == 0
    ensures x == p / ws * ws
  {
    RoundDown(p, ws);
    var r := p / ws * ws;
    if x < r {
      LatticeGap(x, r, ws);
    } else if r < x {
      LatticeGap(r, x, ws);
    }
  }

  /** Within each sampling pass, the blocks `setupWork` pushes cover every
    * pixel of the image exactly once. */
  lemma GridCoversOnce(L: Layout, px: int, py: int, sampling: int)
    requires L.Valid() && 0 <= px < L.width && 0 <= py < L.height
    requires sampling == 0 || sampling == L.sampling
    ensures CoveredOnce(L, multiset(Grid(L, 0)), px, py, sampling)
  {
    var ws := L.workSize;
    var g := Grid(L, 0);
    var o := Owner(L, px, py, sampling);
    RoundDown(px, ws);
    RoundDown(py, ws);
    GridMembers(L, 0, o);
    GridDistinct(L, 0);
    DistinctOnce(g, o);
    forall b: Block | b in multiset(g) && b.sampling == sampling && Covers(b, px, py)
      ensures b == o
    {
      GridMembers(L, 0, b);
      LatticeCell(b.x, px, ws);
      LatticeCell(b.y, py, ws);
    }
  }

  /** The blocks pushed are the lattice tiles: each origin appears with both
    * samplings, each width and height lies in [1, WORKSIZE], and every tile
    * stays inside the image. */
  lemma GridBlocks(L: Layout, b: Block)
    requires L.Valid() && b in Grid(L, 0)
    ensures OnLattice(L, b)
    ensures 1 <= b.width <= L.workSize && 1 <= b.height <= L.workSize
    ensures b.x + b.width <= L.width && b.y + b.height <= L.height
    ensures b.(sampling := 0) in Grid(L, 0) && b.(sampling := L.sampling) in Grid(L, 0)
  {
    GridMembers(L, 0, b);
    GridMembers(L, 0, b.(sampling := 0));
    GridMembers(L, 0, b.(sampling := L.sampling));
  }

  /** The distance `sort` compares: from the tile's nominal centre, `WORKSIZE / 2`
    * past its origin, to the image centre. */
  function Distance(L: Layout, sqrt: real -> real, b: Block): real {
    var dx := b.x as real + L.workSize as real / 2.0 - L.width as real / 2.0;
    var dy := b.y as real + L.workSize as real / 2.0 - L.height as real / 2.0;
    sqrt(dx * dx + dy * dy)
  }

  /** The squared distance, which `Distance` takes the root of. */
  function SquaredDistance(L: Layout, b: Block): (d: real)
    ensures 0.0 <= d
  {
    var dx := b.x as real + L.workSize as real / 2.0 - L.width as real / 2.0;
    var dy := b.y as real + L.workSize as real / 2.0 - L.height as real / 2.0;
    dx * dx + dy * dy
  }

  /** The comparator passed to `blocks.sort`: a negative value puts `a` first. */
  function Compare(L: Layout, sqrt: real -> real, a: Block, b: Block): real {
    if a.sampling != b.sampling then (a.sampling - b.sampling) as real
    else Distance(L, sqrt, a) - Distance(L, sqrt, b)
  }

  /** Swapping the arguments negates the comparator, so it orders any two blocks. */
  lemma CompareFlip(L: Layout, sqrt: real -> real, a: Block, b: Block)
    ensures Compare(L, sqrt, b, a) == -Compare(L, sqrt, a, b)
  {
  }

  /** The comparator is transitive. */
  lemma CompareTransitive(L: Layout, sqrt: real -> real, a: Block, b: Block, c: Block)
    requires Compare(L, sqrt, a, b) <= 0.0 && Compare(L, sqrt, b, c) <= 0.0
    ensures Compare(L, sqrt, a, c) <= 0.0
  {
  }

  /** `s` is in the order the comparator asks for. */
  predicate Ordered(L: Layout, sqrt: real -> real, s: seq<Block>) {
    forall i, j :: 0 <= i < j < |s| ==> Compare(L, sqrt, s[i], s[j]) <= 0.0
  }

  /** Placing `b` into an ordered sequence. */
  function Insert(L: Layout, sqrt: real -> real, b: Block, s: seq<Block>): (r: seq<Block>)
    requires Ordered(L, sqrt, s)
    ensures multiset(r) == multiset(s) + multiset{b}
    ensures Ordered(L, sqrt, r)
  {
    if s == [] then [b]
    else if Compare(L, sqrt, b, s[0]) <= 0.0 then
      assert forall j :: 0 < j < |s| ==> Compare(L, sqrt, s[0], s[j]) <= 0.0;
      InsertFront(L, sqrt, b, s);
      [b] + s
    else
      var tail := s[1..];
      TailOrdered(L, sqrt, s);
      var rest := Insert(L, sqrt, b, tail);
      InsertAfter(L, sqrt, b, s, rest);
      assert s == [s[0]] + tail;
      [s[0]] + rest
  }

  /** Dropping the head keeps a sequence ordered. */
  lemma TailOrdered(L: Layout, sqrt: real -> real, s: seq<Block>)
    requires Ordered(L, sqrt, s) && s != []
    ensures Ordered(L, sqrt, s[1..])
  {
    var tail := s[1..];
    forall i, j | 0 <= i < j < |tail|
      ensures Compare(L, sqrt, tail[i], tail[j]) <= 0.0
    {
      assert tail[i] == s[i + 1] && tail[j] == s[j + 1];
    }
  }

  /** The head of an ordered sequence stays in front of the tail with `b`
    * placed into it, when `b` sorts after that head. */
  lemma InsertAfter(L: Layout, sqrt: real -> real, b: Block, s: seq<Block>, rest: seq<Block>)
    requires Ordered(L, sqrt, s) && s != [] && Compare(L, sqrt, b, s[0]) > 0.0
    requires Ordered(L, sqrt, rest) && multiset(rest) == multiset(s[1..]) + multiset{b}
    ensures Ordered(L, sqrt, [s[0]] + rest)
  {
    var tail := s[1..];
    CompareFlip(L, sqrt, b, s[0]);
    forall e | e in rest
      ensures Compare(L, sqrt, s[0], e) <= 0.0
    {
      assert e in multiset(rest);
      if e != b {
        assert e in multiset(tail);
        var k :| 0 <= k < |tail| && tail[k] == e;
        assert s[k + 1] == e;
      }
    }
    PrependOrdered(L, sqrt, s[0], rest);
  }

  lemma InsertFront(L: Layout, sqrt: real -> real, b: Block, s: seq<Block>)
    requires Ordered(L, sqrt, s) && s != [] && Compare(L, sqrt, b, s[0]) <= 0.0
    ensures Ordered(L, sqrt, [b] + s)
  {
    forall j | 0 < j < |s|
      ensures Compare(L, sqrt, b, s[j]) <= 0.0
    {
      CompareTransitive(L, sqrt, b, s[0], s[j]);
    }
    PrependOrdered(L, sqrt, b, s);
  }

  lemma PrependOrdered(L: Layout, sqrt: real -> real, b: Block, s: seq<Block>)
    requires Ordered(L, sqrt, s)
    requires forall e :: e in s ==> Compare(L, sqrt, b, e) <= 0.0
    ensures Ordered(L, sqrt, [b] + s)
  {
    var r := [b] + s;
    forall i, j | 0 <= i < j < |r|
      ensures Compare(L, sqrt, r[i], r[j]) <= 0.0
    {
      assert r[j] == s[j - 1];
      if i > 0 {
        assert r[i] == s[i - 1];
      } else {
        assert s[j - 1] in s;
      }
    }
  }

  /** `blocks.sort(comparator)`: the same blocks, in comparator order. */
  function Sort(L: Layout, sqrt: real -> real, s: seq<Block>): (r: seq<Block>)
    ensures multiset(r) == multiset(s)
    ensures Ordered(L, sqrt, r)
  {
    if s == [] then []
    else
      assert s == [s[0]] + s[1..];
      Insert(L, sqrt, s[0], Sort(L, sqrt, s[1..]))
  }

  /** In comparator order every preview block precedes every full block, and
    * within one pass the tile-centre distance from the image centre does not
    * decrease. */
  lemma OrderedPasses(L: Layout, sqrt: real -> real, s: seq<Block>, i: int, j: int)
    requires IsSqrt(sqrt) && Ordered(L, sqrt, s) && 0 <= i < j < |s|
    ensures s[i].sampling <= s[j].sampling
    ensures s[i].sampling == s[j].sampling ==> SquaredDistance(L, s[i]) <= SquaredDistance(L, s[j])
  {
    assert Compare(L, sqrt, s[i], s[j]) <= 0.0;
    if s[i].sampling == s[j].sampling {
      var a, b := SquaredDistance(L, s[i]), SquaredDistance(L, s[j]);
      var ra, rb := sqrt(a), sqrt(b);
      assert ra <= rb;
      assert ra * ra == a && rb * rb == b && 0.0 <= ra;
      NonNegProduct(ra, rb - ra);
      NonNegProduct(rb, rb - ra);
      assert rb * rb - ra * ra == ra * (rb - ra) + rb * (rb - ra);
    }
  }

  /** The result `serverCheck` records for tile origin `p`: `!outblocks[p]` holds
    * when there is no entry and also when the entry is 0, so a preview is
    * redrawn over a preview, while a larger sampling always replaces a smaller
    * one. `redraw` says whether the tile is drawn and recorded. */
  function Record(outblocks: map<int, int>, p: int, sampling: int): (r: (map<int, int>, bool))
    ensures r.1 <==> p !in outblocks || outblocks[p] == 0 || outblocks[p] < sampling
    ensures r.1 ==> r.0 == outblocks[p := sampling]
    ensures !r.1 ==> r.0 == outblocks
  {
    var redraw := p !in outblocks || outblocks[p] == 0 || outblocks[p] < sampling;
    (if redraw then outblocks[p := sampling] else outblocks, redraw)
  }

  /** With non-negative samplings, recording never lowers an entry or drops a
    * key. */
  lemma RecordMonotone(outblocks: map<int, int>, p: int, sampling: int)
    requires 0 <= sampling
    ensures p in Record(outblocks, p, sampling).0
    ensures forall q :: q in outblocks ==>
      q in Record(outblocks, p, sampling).0 && outblocks[q] <= Record(outblocks, p, sampling).0[q]
  {
  }

  /** A job as the queue server returns it: the renderer's code hash, the block
    * and its id. */
  datatype Job = Job(id: int, codeHash: string, block: Block)

  /** The entries `serverCheck` leaves after processing `jobs` in order: jobs
    * rendered by other code are deleted unread. */
  function Checked(outblocks: map<int, int>, width: int, codeHash: string, jobs: seq<Job>): map<int, int>
    decreases |jobs|
  {
    if jobs == [] then outblocks
    else
      var b := jobs[0].block;
      var next := if jobs[0].codeHash != codeHash then outblocks
        else Record(outblocks, b.x + b.y * width, b.sampling).0;
      Checked(next, width, codeHash, jobs[1..])
  }

  /** A block that some job of the current code carries. */
  predicate FromCurrentJob(b: Block, codeHash: string, jobs: seq<Job>) {
    exists k :: 0 <= k < |jobs| && jobs[k].codeHash == codeHash && jobs[k].block == b
  }

  /** The tiles `serverCheck` draws on the canvas while processing `jobs` in
    * order: the block of each job of the current code that `Record` redraws. */
  function Redrawn(outblocks: map<int, int>, width: int, codeHash: string, jobs: seq<Job>): (r: seq<Block>)
    ensures |r| <= |jobs|
    ensures forall i :: 0 <= i < |r| ==> FromCurrentJob(r[i], codeHash, jobs)
    decreases |jobs|
  {
    if jobs == [] then []
    else
      var b := jobs[0].block;
      var rec := Record(outblocks, b.x + b.y * width, b.sampling);
      var next := if jobs[0].codeHash != codeHash then outblocks else rec.0;
      var rest := Redrawn(next, width, codeHash, jobs[1..]);
      assert forall i :: 0 <= i < |rest| ==> FromCurrentJob(rest[i], codeHash, jobs) by {
        forall i | 0 <= i < |rest|
          ensures FromCurrentJob(rest[i], codeHash, jobs)
        {
          FromTail(rest[i], codeHash, jobs);
        }
      }
      if jobs[0].codeHash == codeHash && rec.1 then
        assert FromCurrentJob(b, codeHash, jobs) by {
          assert jobs[0].codeHash == codeHash && jobs[0].block == b;
        }
        [b] + rest
      else rest
  }

  /** A block from a later job of the current code is from one of all the jobs. */
  lemma FromTail(b: Block, codeHash: string, jobs: seq<Job>)
    requires jobs != [] && FromCurrentJob(b, codeHash, jobs[1..])
    ensures FromCurrentJob(b, codeHash, jobs)
  {
    var k :| 0 <= k < |jobs[1..]| && jobs[1..][k].codeHash == codeHash && jobs[1..][k].block == b;
    assert jobs[k + 1] == jobs[1..][k];
  }

  /** `outblocks` never decreases: after any run of `serverCheck` over jobs with
    * non-negative samplings, every recorded origin is still there with at least
    * the sampling it had. */
  lemma {:induction false} CheckedMonotone(outblocks: map<int, int>, width: int, codeHash: string, jobs: seq<Job>, q: int)
    requires forall k :: 0 <= k < |jobs| ==> 0 <= jobs[k].block.sampling
    requires q in outblocks
    ensures q in Checked(outblocks, width, codeHash, jobs)
    ensures outblocks[q] <= Checked(outblocks, width, codeHash, jobs)[q]
    decreases |jobs|
  {
    if jobs != [] {
      var b := jobs[0].block;
      var next := if jobs[0].codeHash != codeHash then outblocks
        else Record(outblocks, b.x + b.y * width, b.sampling).0;
      if jobs[0].codeHash == codeHash {
        RecordMonotone(outblocks, b.x + b.y * width, b.sampling);
      }
      CheckedMonotone(next, width, codeHash, jobs[1..], q);
    }
  }

  /** The page's state. */
  class Broker {
    /** The constants the page was loaded with. */
    const layout: Layout
    /** `CODEHASH`. */
    const codeHash: string
    /** `blocks` and its `total` property: `blocks.length / 2` is a JavaScript
      * number, so it is kept as a real. */
    var blocks: seq<Block>
    var total: real
    /** `outblocks`: per tile origin `x + y * WIDTH`, the sampling last drawn. */
    var outblocks: map<int, int>
    /** The tiles drawn on the canvas, in drawing order. */
    var drawn: seq<Block>

    constructor (codeHash: string)
      ensures layout == Layout(Width, Height, WorkSize, Sampling) && this.codeHash == codeHash
      ensures blocks == [] && total == 0.0 && outblocks == map[] && drawn == []
    {
      layout := Layout(Width, Height, WorkSize, Sampling);
      this.codeHash := codeHash;
      blocks, total, outblocks, drawn := [], 0.0, map[], [];
    }

    /** `setupWork()`: pushes the lattice tiles row by row, each twice, sets
      * `total`, then sorts. `sqrt` stands for `Math.sqrt`. */
    method SetupWork(sqrt: real -> real)
      requires layout.Valid()
      modifies this
      ensures multiset(blocks) == multiset(old(blocks) + Grid(layout, 0))
      ensures Ordered(layout, sqrt, blocks)
      ensures total == (|old(blocks)| + |Grid(layout, 0)|) as real / 2.0
      ensures outblocks == old(outblocks) && drawn == old(drawn)
    {
      PushGrid();
      total := |blocks| as real / 2.0;
      SortBlocks(sqrt);
    }

    /** The two loops of `setupWork`: rows of tiles, top to bottom. */
    method PushGrid()
      requires layout.Valid()
      modifies this
      ensures blocks == old(blocks) + Grid(layout, 0)
      ensures outblocks == old(outblocks) && drawn == old(drawn) && total == old(total)
    {
      var L := layout;
      var y := 0;
      while y < L.height
        invariant 0 <= y
        invariant blocks + Grid(L, y) == old(blocks) + Grid(L, 0)
        invariant outblocks == old(outblocks) && drawn == old(drawn) && total == old(total)
        decreases L.height - y
      {
        ghost var before := blocks;
        PushRow(y);
        assert blocks + Grid(L, y + L.workSize) == before + Grid(L, y);
        y := y + L.workSize;
      }
      assert blocks + Grid(L, y) == blocks;
    }

    /** `blocks.sort(...)`, in place. */
    method SortBlocks(sqrt: real -> real)
      modifies this
      ensures multiset(blocks) == multiset(old(blocks))
      ensures Ordered(layout, sqrt, blocks)
      ensures outblocks == old(outblocks) && drawn == old(drawn) && total == old(total)
    {
      blocks := Sort(layout, sqrt, blocks);
    }

    /** The inner loop of `setupWork`: row `y` of tiles, left to right. */
    method PushRow(y: int)
      requires layout.Valid() && 0 <= y < layout.height
      modifies this
      ensures blocks == old(blocks) + Row(layout, y, 0)
      ensures outblocks == old(outblocks) && drawn == old(drawn) && total == old(total)
    {
      var L := layout;
      var x := 0;
      while x < L.width
        invariant 0 <= x
        invariant blocks + Row(L, y, x) == old(blocks) + Row(L, y, 0)
        invariant outblocks == old(outblocks) && drawn == old(drawn) && total == old(total)
        decreases L.width - x
      {
        var w := (if L.width < x + L.workSize then L.width else x + L.workSize) - x;
        var h := (if L.height < y + L.workSize then L.height else y + L.workSize) - y;
        assert Row(L, y, x) == [Block(x, y, w, h, 0), Block(x, y, w, h, L.sampling)] + Row(L, y, x + L.workSize);
        ghost var before := blocks;
        blocks := blocks + [Block(x, y, w, h, 0)];
        blocks := blocks + [Block(x, y, w, h, L.sampling)];
        assert blocks + Row(L, y, x + L.workSize) == before + Row(L, y, x);
        x := x + L.workSize;
      }
      assert blocks + Row(L, y, x) == blocks;
    }

    /** The `outblocks` update of `serverCheck`, over the jobs `fetch()` returns
      * before the queue runs dry: each job of the current code draws its tile
      * and records its sampling when `Record` says so. */
    method ServerCheck(jobs: seq<Job>)
      modifies this
      ensures outblocks == Checked(old(outblocks), layout.width, codeHash, jobs)
      ensures blocks == old(blocks) && total == old(total)
      ensures drawn == old(drawn) + Redrawn(old(outblocks), layout.width, codeHash, jobs)
    {
      var k := 0;
      while k < |jobs|
        invariant 0 <= k <= |jobs|
        invariant Checked(outblocks, layout.width, codeHash, jobs[k..]) == Checked(old(outblocks), layout.width, codeHash, jobs)
        invariant blocks == old(blocks) && total == old(total)
        invariant drawn + Redrawn(outblocks, layout.width, codeHash, jobs[k..])
          == old(drawn) + Redrawn(old(outblocks), layout.width, codeHash, jobs)
      {
        var info := jobs[k];
        assert jobs[k..][1..] == jobs[k + 1..];
        if info.codeHash == codeHash {
          var p := info.block.x + info.block.y * layout.width;
          if p !in outblocks || outblocks[p] == 0 || outblocks[p] < info.block.sampling {
            drawn := drawn + [info.block];
            outblocks := outblocks[p := info.block.sampling];
          }
        }
        k := k + 1;
      }
      assert jobs[k..] == [];
      assert drawn + [] == drawn;
    }

    /** Single-mode `clientGetJob`: `blocks.shift()`, wrapped as job 0, or `null`
      * once the queue is empty. */
    method ClientGetJob() returns (job: Option<Job>)
      modifies this
      ensures old(blocks) == [] ==> job == None && blocks == []
      ensures old(blocks) != [] ==> job == Some(Job(0, "", old(blocks)[0])) && blocks == old(blocks)[1..]
      ensures total == old(total) && outblocks == old(outblocks) && drawn == old(drawn)
    {
      if blocks == [] {
        return None;
      }
      var d := blocks[0];
      blocks := blocks[1..];
      job := Some(Job(0, "", d));
    }
  }

  /** After `setupWork` on a fresh page the queue is some ordering of the grid:
    * it holds each lattice tile once per pass, so each pass covers every pixel
    * exactly once, and `total`, half the queue's length, is a whole number: the
    * count of tile origins. */
  lemma SetupWorkQueue(L: Layout, blocks: seq<Block>, px: int, py: int)
    requires L.Valid() && multiset(blocks) == multiset(Grid(L, 0))
    requires 0 <= px < L.width && 0 <= py < L.height
    ensures CoveredOnce(L, multiset(blocks), px, py, 0)
    ensures CoveredOnce(L, multiset(blocks), px, py, L.sampling)
    ensures |blocks| % 2 == 0
  {
    var g := Grid(L, 0);
    GridCoversOnce(L, px, py, 0);
    GridCoversOnce(L, px, py, L.sampling);
    GridEven(L, 0);
    assert |blocks| == |multiset(blocks)| == |multiset(g)| == |g|;
  }
}
