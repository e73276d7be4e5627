/** src/core/EFloat.h: a float `v` carried together with an enclosure
  * `[low, high]` of its exact value. `FloatDown` and `FloatUp` (the next float
  * below and above) are passed in as a `Rounding`, about which only
  * `down(x) <= x <= up(x)` is known. The debug-only `precise` field is not
  * modelled. */
module CoreEFloat {
  import opened Numerics

  datatype EFloat = EFloat(v: real, low: real, high: real)

  /** `FloatDown` and `FloatUp`. */
  datatype Rounding = Rounding(down: real -> real, up: real -> real)

  /** The only property of the two roundings that the interval code relies on. */
  ghost predicate Sound(rd: Rounding) {
    forall x :: rd.down(x) <= x <= rd.up(x)
  }

  /** Rounding that changes nothing; it is sound, so it may stand for the real
    * roundings in a counterexample. */
  function Exact(): (rd: Rounding)
    ensures Sound(rd)
  {
    Rounding(x => x, x => x)
  }

  /** `Check()` on finite bounds: `CHECK_LE(low, high)`. */
  predicate Checked(e: EFloat) {
    e.low <= e.high
  }

  /** The enclosure holds `x`. */
  predicate Encloses(e: EFloat, x: real) {
    e.low <= x <= e.high
  }

  /** `EFloat(v, err)`: with `err == 0` the degenerate interval `[v, v]`, otherwise
    * `[FloatDown(v - err), FloatUp(v + err)]`. A negative `err` is not rejected,
    * so only a non-negative one is certain to pass `Check`. */
  function Make(v: real, err: real, rd: Rounding): (r: EFloat)
    ensures r.v == v
    ensures err == 0.0 ==> r.low == v && r.high == v
    ensures err != 0.0 ==> r.low == rd.down(v - err) && r.high == rd.up(v + err)
    ensures Sound(rd) && 0.0 <= err ==> Checked(r) && Encloses(r, v)
    ensures Sound(rd) && 0.0 <= err ==> r.low <= v - err && v + err <= r.high
  {
    if err == 0.0 then EFloat(v, v, v)
    else EFloat(v, rd.down(v - err), rd.up(v + err))
  }

  /** `EFloat()`: zero with no error. */
  function Default(): (r: EFloat)
    ensures r == EFloat(0.0, 0.0, 0.0)
  {
    EFloat(0.0, 0.0, 0.0)
  }

  /** `GetAbsoluteError()`: the width of the enclosure; never negative once `Check`
    * holds. */
  function AbsoluteError(e: EFloat): (r: real)
    ensures Checked(e) <==> 0.0 <= r
    ensures e.low + r == e.high
  {
    e.high - e.low
  }

  /** `operator+`: bounds added and rounded outward. */
  function Add(a: EFloat, o: EFloat, rd: Rounding): (r: EFloat)
    ensures r.v == a.v + o.v
    ensures Sound(rd) && Checked(a) && Checked(o) ==> Checked(r)
    ensures Sound(rd) ==> forall x, y :: Encloses(a, x) && Encloses(o, y) ==> Encloses(r, x + y)
  {
    EFloat(a.v + o.v, rd.down(a.low + o.low), rd.up(a.high + o.high))
  }

  /** `operator-` as written: low minus low and high minus high. */
  function Sub(a: EFloat, o: EFloat, rd: Rounding): (r: EFloat)
    ensures r.v == a.v - o.v
    ensures r.low == rd.down(a.low - o.low) && r.high == rd.up(a.high - o.high)
  {
    EFloat(a.v - o.v, rd.down(a.low - o.low), rd.up(a.high - o.high))
  }

  /** The defect: `[0, 0] - [0, 10]` comes out as `[0, -10]` under exact rounding,
    * which fails `Check` and encloses neither 0 - 0 nor any other difference. */
  lemma SubInverts()
    ensures Checked(EFloat(0.0, 0.0, 0.0)) && Checked(EFloat(0.0, 0.0, 10.0))
    ensures Sub(EFloat(0.0, 0.0, 0.0), EFloat(0.0, 0.0, 10.0), Exact()) == EFloat(0.0, 0.0, -10.0)
    ensures !Checked(Sub(EFloat(0.0, 0.0, 0.0), EFloat(0.0, 0.0, 10.0), Exact()))
  {
  }

  /** `operator-` as evidently intended: the lowest difference takes the other
    * operand's upper bound. */
  function SubEnclosing(a: EFloat, o: EFloat, rd: Rounding): (r: EFloat)
    ensures r.v == a.v - o.v
    ensures Sound(rd) && Checked(a) && Checked(o) ==> Checked(r)
    ensures Sound(rd) ==> forall x, y :: Encloses(a, x) && Encloses(o, y) ==> Encloses(r, x - y)
  {
    EFloat(a.v - o.v, rd.down(a.low - o.high), rd.up(a.high - o.low))
  }

  /** The smallest and largest of four numbers, as `min(min(p0, p1), min(p2, p3))`
    * and `max(max(p0, p1), max(p2, p3))`. */
  function Min4(p0: real, p1: real, p2: real, p3: real): (r: real)
    ensures r <= p0 && r <= p1 && r <= p2 && r <= p3
    ensures r == p0 || r == p1 || r == p2 || r == p3
  {
    Min(Min(p0, p1), Min(p2, p3))
  }

  function Max4(p0: real, p1: real, p2: real, p3: real): (r: real)
    ensures p0 <= r && p1 <= r && p2 <= r && p3 <= r
    ensures r == p0 || r == p1 || r == p2 || r == p3
  {
    Max(Max(p0, p1), Max(p2, p3))
  }

  /** `operator*` as written: `r.low` is assigned twice, so it ends up as the
    * rounded-up maximum of the four corner products, while `r.high` keeps the 0
    * of the default-constructed `r`. */
  function Mul(a: EFloat, o: EFloat, rd: Rounding): (r: EFloat)
    ensures r.v == a.v * o.v
    ensures r.high == 0.0
    ensures r.low == rd.up(Max4(a.low * o.low, a.high * o.low, a.low * o.high, a.high * o.high))
  {
    var p0, p1, p2, p3 := a.low * o.low, a.high * o.low, a.low * o.high, a.high * o.high;
    var r := Default();
    var r := r.(v := a.v * o.v);
    var r := r.(low := rd.down(Min4(p0, p1, p2, p3)));
    r.(low := rd.up(Max4(p0, p1, p2, p3)))
  }

  /** The defect: `[1, 1] * [2, 2]` becomes `[2, 0]` under exact rounding. */
  lemma MulLosesHigh()
    ensures Mul(EFloat(1.0, 1.0, 1.0), EFloat(2.0, 2.0, 2.0), Exact()) == EFloat(2.0, 2.0, 0.0)
    ensures !Checked(Mul(EFloat(1.0, 1.0, 1.0), EFloat(2.0, 2.0, 2.0), Exact()))
  {
  }

  /** A product of two enclosed numbers lies between the smallest and the largest
    * corner product. */
  lemma ProductBetweenCorners(a: EFloat, o: EFloat, x: real, y: real)
    requires Encloses(a, x) && Encloses(o, y)
    ensures Min4(a.low * o.low, a.high * o.low, a.low * o.high, a.high * o.high) <= x * y
    ensures x * y <= Max4(a.low * o.low, a.high * o.low, a.low * o.high, a.high * o.high)
  {
    // x * y lies between a.low * y and a.high * y, and each of those between
    // its two corner products
    CornerProducts(a.low, a.high, x, o.low, o.high, y);
  }

  lemma CornerProducts(al: real, ah: real, x: real, bl: real, bh: real, y: real)
    requires al <= x <= ah && bl <= y <= bh
    ensures Min4(al * bl, ah * bl, al * bh, ah * bh) <= x * y <= Max4(al * bl, ah * bl, al * bh, ah * bh)
  {
    BetweenEnds(al, ah, x, y);
    BetweenEndsLeft(bl, bh, y, al);
    BetweenEndsLeft(bl, bh, y, ah);
    BetweenBetween(al * bl, ah * bl, al * bh, ah * bh, al * y, ah * y, x * y);
  }

  /** A number between two numbers, each between two corners, is between the
    * extreme corners. */
  lemma BetweenBetween(p0: real, p1: real, p2: real, p3: real, ly: real, hy: real, xy: real)
    requires Min(p0, p2) <= ly <= Max(p0, p2) && Min(p1, p3) <= hy <= Max(p1, p3)
    requires Min(ly, hy) <= xy <= Max(ly, hy)
    ensures Min4(p0, p1, p2, p3) <= xy <= Max4(p0, p1, p2, p3)
  {
  }

  /** `t * k` lies between `l * k` and `h * k` for `t` in `[l, h]`. */
  lemma BetweenEnds(l: real, h: real, t: real, k: real)
    requires l <= t <= h
    ensures Min(l * k, h * k) <= t * k <= Max(l * k, h * k)
  {
    if 0.0 <= k {
      assert (t - l) * k >= 0.0 && (h - t) * k >= 0.0;
    } else {
      assert (t - l) * k <= 0.0 && (h - t) * k <= 0.0;
    }
  }

  /** The same with the factor on the left. */
  lemma BetweenEndsLeft(l: real, h: real, t: real, k: real)
    requires l <= t <= h
    ensures Min(k * l, k * h) <= k * t <= Max(k * l, k * h)
  {
    BetweenEnds(l, h, t, k);
    assert k * l == l * k && k * h == h * k && k * t == t * k;
  }

  /** `operator*` as evidently intended: `r.high` takes the rounded-up maximum. */
  function MulEnclosing(a: EFloat, o: EFloat, rd: Rounding): (r: EFloat)
    ensures r.v == a.v * o.v
    ensures Sound(rd) ==> Checked(r)
    ensures Sound(rd) ==> forall x, y :: Encloses(a, x) && Encloses(o, y) ==> Encloses(r, x * y)
  {
    var p0, p1, p2, p3 := a.low * o.low, a.high * o.low, a.low * o.high, a.high * o.high;
    var r := EFloat(a.v * o.v, rd.down(Min4(p0, p1, p2, p3)), rd.up(Max4(p0, p1, p2, p3)));
    ProductsEnclosed(a, o, rd, r);
    r
  }

  lemma ProductsEnclosed(a: EFloat, o: EFloat, rd: Rounding, r: EFloat)
    requires r.low == rd.down(Min4(a.low * o.low, a.high * o.low, a.low * o.high, a.high * o.high))
    requires r.high == rd.up(Max4(a.low * o.low, a.high * o.low, a.low * o.high, a.high * o.high))
    ensures Sound(rd) ==> forall x, y :: Encloses(a, x) && Encloses(o, y) ==> Encloses(r, x * y)
  {
    if Sound(rd) {
      forall x, y | Encloses(a, x) && Encloses(o, y) ensures Encloses(r, x * y) {
        ProductBetweenCorners(a, o, x, y);
      }
    }
  }

  /** The result of `operator/`: a finite enclosure, or (-Infinity, +Infinity)
    * when the divisor's interval straddles zero. */
  datatype Quotient = Bounded(e: EFloat) | Unbounded(v: real)

  /** The divisor's interval holds zero strictly inside: `o.low < 0 && o.high > 0`. */
  predicate Straddles(o: EFloat) {
    o.low < 0.0 && 0.0 < o.high
  }

  /** `operator/` as written: a straddling divisor gives the whole line; otherwise
    * the same double assignment of `r.low` as `operator*`, leaving `r.high` at 0.
    * Division by a zero value or a zero bound (an infinity in IEEE arithmetic) is
    * excluded. */
  function Div(a: EFloat, o: EFloat, rd: Rounding): (r: Quotient)
    requires o.v != 0.0
    requires !Straddles(o) ==> o.low != 0.0 && o.high != 0.0
    ensures r.Unbounded? <==> Straddles(o)
    ensures r.Unbounded? ==> r.v == a.v / o.v
    ensures r.Bounded? ==> r.e.v == a.v / o.v && r.e.high == 0.0
    ensures r.Bounded? ==> r.e.low == rd.up(Max4(a.low / o.low, a.high / o.low, a.low / o.high, a.high / o.high))
  {
    if o.low < 0.0 && o.high > 0.0 then Unbounded(a.v / o.v)
    else
      var p0, p1, p2, p3 := a.low / o.low, a.high / o.low, a.low / o.high, a.high / o.high;
      var r := Default();
      var r := r.(v := a.v / o.v);
      var r := r.(low := rd.down(Min4(p0, p1, p2, p3)));
      Bounded(r.(low := rd.up(Max4(p0, p1, p2, p3))))
  }

  /** The defect in `/`: `[2, 2] / [1, 1]` becomes `[2, 0]` under exact rounding. */
  lemma DivLosesHigh()
    ensures Div(EFloat(2.0, 2.0, 2.0), EFloat(1.0, 1.0, 1.0), Exact()) == Bounded(EFloat(2.0, 2.0, 0.0))
  {
  }

  /** `operator/` as evidently intended: `r.high` takes the rounded-up maximum of
    * the corner quotients. */
  function DivEnclosing(a: EFloat, o: EFloat, rd: Rounding): (r: Quotient)
    requires o.v != 0.0
    requires !Straddles(o) ==> o.low != 0.0 && o.high != 0.0
    ensures r.Unbounded? <==> Straddles(o)
    ensures r.Bounded? ==> r.e.v == a.v / o.v
    ensures r.Bounded? && Sound(rd) ==> Checked(r.e)
    ensures r.Bounded? && Sound(rd) && Checked(o) ==>
      forall x, y :: Encloses(a, x) && Encloses(o, y) ==> Encloses(r.e, x / y)
  {
    if o.low < 0.0 && o.high > 0.0 then Unbounded(a.v / o.v)
    else
      var p0, p1, p2, p3 := a.low / o.low, a.high / o.low, a.low / o.high, a.high / o.high;
      var e := EFloat(a.v / o.v, rd.down(Min4(p0, p1, p2, p3)), rd.up(Max4(p0, p1, p2, p3)));
      QuotientsEnclosed(a, o, rd, e);
      Bounded(e)
  }

  lemma QuotientsEnclosed(a: EFloat, o: EFloat, rd: Rounding, r: EFloat)
    requires o.low != 0.0 && o.high != 0.0 && !Straddles(o)
    requires r.low == rd.down(Min4(a.low / o.low, a.high / o.low, a.low / o.high, a.high / o.high))
    requires r.high == rd.up(Max4(a.low / o.low, a.high / o.low, a.low / o.high, a.high / o.high))
    ensures Sound(rd) && Checked(o) ==> forall x, y :: Encloses(a, x) && Encloses(o, y) ==> Encloses(r, x / y)
  {
    if Sound(rd) && Checked(o) {
      forall x, y | Encloses(a, x) && Encloses(o, y) ensures Encloses(r, x / y) {
        QuotientBetweenCorners(a, o, x, y);
      }
    }
  }

  /** A quotient of enclosed numbers by a divisor interval that keeps one sign lies
    * between the extreme corner quotients. */
  lemma QuotientBetweenCorners(a: EFloat, o: EFloat, x: real, y: real)
    requires Encloses(a, x) && Encloses(o, y)
    requires o.low != 0.0 && o.high != 0.0 && !Straddles(o)
    ensures Min4(a.low / o.low, a.high / o.low, a.low / o.high, a.high / o.high) <= x / y
    ensures x / y <= Max4(a.low / o.low, a.high / o.low, a.low / o.high, a.high / o.high)
  {
    assert 0.0 < o.low || o.high < 0.0;
    QuotientCorners(a.low, a.high, x, o.low, o.high, y);
  }

  /** The same on bare bounds: the divisor interval `[ol, oh]` lies on one side
    * of zero, so `1/y` lies between `1/oh` and `1/ol`, and `x/y` is the
    * product `x * (1/y)`. */
  lemma QuotientCorners(al: real, ah: real, x: real, ol: real, oh: real, y: real)
    requires al <= x <= ah && ol <= y <= oh && (0.0 < ol || oh < 0.0)
    ensures Min4(al / ol, ah / ol, al / oh, ah / oh) <= x / y <= Max4(al / ol, ah / ol, al / oh, ah / oh)
  {
    Reciprocal(ol, oh, y);
    TimesReciprocal(x, y);
    TimesReciprocal(al, oh);
    TimesReciprocal(ah, oh);
    TimesReciprocal(al, ol);
    TimesReciprocal(ah, ol);
    QuotientBound(al, ah, x, 1.0 / oh, 1.0 / ol, 1.0 / y, al / ol, ah / ol, al / oh, ah / oh, x / y);
  }

  /** `x * iy` for `x` in `[al, ah]` and `iy` in `[il, ih]`, against the corner
    * products listed with the `ih` ones first. */
  lemma QuotientBound(al: real, ah: real, x: real, il: real, ih: real, iy: real,
                      q0: real, q1: real, q2: real, q3: real, u: real)
    requires al <= x <= ah && il <= iy <= ih
    requires q0 == al * ih && q1 == ah * ih && q2 == al * il && q3 == ah * il && u == x * iy
    ensures Min4(q0, q1, q2, q3) <= u <= Max4(q0, q1, q2, q3)
  {
    CornerProducts(al, ah, x, il, ih, iy);
    SwappedBounds(q0, q1, q2, q3, al * il, ah * il, al * ih, ah * ih, u, x * iy);
  }

  /** Bounds by four corners carry over to the same corners in another order. */
  lemma SwappedBounds(q0: real, q1: real, q2: real, q3: real, p0: real, p1: real, p2: real, p3: real, u: real, w: real)
    requires q0 == p2 && q1 == p3 && q2 == p0 && q3 == p1 && u == w
    requires Min4(p0, p1, p2, p3) <= w <= Max4(p0, p1, p2, p3)
    ensures Min4(q0, q1, q2, q3) <= u <= Max4(q0, q1, q2, q3)
  {
  }

  lemma TimesReciprocal(p: real, q: real)
    requires q != 0.0
    ensures p / q == p * (1.0 / q)
  {
  }


  /** On an interval of one sign, `1/y` lies between `1/high` and `1/low`. */
  lemma Reciprocal(l: real, h: real, y: real)
    requires l <= y <= h && (0.0 < l || h < 0.0)
    ensures 1.0 / h <= 1.0 / y <= 1.0 / l
  {
    assert y != 0.0 && l * y > 0.0 && h * y > 0.0;
    assert 1.0 / y - 1.0 / l == (l - y) / (l * y);
    assert 1.0 / h - 1.0 / y == (y - h) / (h * y);
  }

  /** Unary `operator-`: `v` negated, the bounds swapped and negated. */
  function Neg(a: EFloat): (r: EFloat)
    ensures Checked(a) <==> Checked(r)
    ensures forall x :: Encloses(a, x) <==> Encloses(r, -x)
  {
    EFloat(-a.v, -a.high, -a.low)
  }

  lemma NegInvolution(a: EFloat)
    ensures Neg(Neg(a)) == a
  {
  }

  /** `operator==` looks at the values only, not at the enclosures. */
  function Equal(a: EFloat, o: EFloat): (r: bool)
    ensures r <==> a.v == o.v
    ensures r && a.low != o.low ==> a != o
  {
    a.v == o.v
  }

  /** The mixed overloads `f op fe` first turn `f` into an exact `EFloat(f)`. */
  function Lift(f: real): (r: EFloat)
    ensures Checked(r) && Encloses(r, f) && AbsoluteError(r) == 0.0
  {
    Make(f, 0.0, Exact())
  }

  function AddScalar(f: real, fe: EFloat, rd: Rounding): (r: EFloat)
    ensures r.v == f + fe.v
    ensures Sound(rd) && Checked(fe) ==> Checked(r)
    ensures Sound(rd) ==> forall y :: Encloses(fe, y) ==> Encloses(r, f + y)
  {
    Add(Lift(f), fe, rd)
  }

  function SubScalar(f: real, fe: EFloat, rd: Rounding): (r: EFloat)
    ensures r.v == f - fe.v
    ensures r.low == rd.down(f - fe.low) && r.high == rd.up(f - fe.high)
  {
    Sub(Lift(f), fe, rd)
  }

  function MulScalar(f: real, fe: EFloat, rd: Rounding): (r: EFloat)
    ensures r.v == f * fe.v && r.high == 0.0
  {
    Mul(Lift(f), fe, rd)
  }

  function DivScalar(f: real, fe: EFloat, rd: Rounding): (r: Quotient)
    requires fe.v != 0.0
    requires !Straddles(fe) ==> fe.low != 0.0 && fe.high != 0.0
    ensures r.Unbounded? <==> Straddles(fe)
    ensures r.Bounded? ==> r.e.v == f / fe.v && r.e.high == 0.0
  {
    Div(Lift(f), fe, rd)
  }

  /** `sqrt(fe)`: the square roots of the bounds, rounded outward. Square roots of
    * negative numbers (NaN) are excluded. */
  function Sqrt(fe: EFloat, rd: Rounding, sqrt: real -> real): (r: EFloat)
    requires IsSqrt(sqrt) && 0.0 <= fe.low && 0.0 <= fe.v
    ensures r.v == sqrt(fe.v)
    ensures Sound(rd) && Checked(fe) ==> Checked(r)
    ensures Sound(rd) ==> forall x :: Encloses(fe, x) ==> Encloses(r, sqrt(x))
  {
    var r := EFloat(sqrt(fe.v), rd.down(sqrt(fe.low)), rd.up(sqrt(fe.high)));
    RootsEnclosed(fe, rd, sqrt, r);
    r
  }

  lemma RootsEnclosed(fe: EFloat, rd: Rounding, sqrt: real -> real, r: EFloat)
    requires IsSqrt(sqrt) && 0.0 <= fe.low
    requires r.low == rd.down(sqrt(fe.low)) && r.high == rd.up(sqrt(fe.high))
    ensures Sound(rd) && Checked(fe) ==> Checked(r)
    ensures Sound(rd) ==> forall x :: Encloses(fe, x) ==> Encloses(r, sqrt(x))
  {
    if Sound(rd) {
      forall x | Encloses(fe, x) ensures Encloses(r, sqrt(x)) {
        SqrtMonotone(sqrt, fe.low, x);
        SqrtMonotone(sqrt, x, fe.high);
      }
      if Checked(fe) {
        SqrtMonotone(sqrt, fe.low, fe.high);
      }
    }
  }

  /** `abs(fe)`: unchanged when `low >= 0`, negated when `high <= 0`, and
    * `[0, max(-low, high)]` around zero. */
  function Abs(fe: EFloat): (r: EFloat)
    ensures 0.0 <= fe.low ==> r == fe
    ensures fe.low < 0.0 && fe.high <= 0.0 ==> r == Neg(fe)
    ensures fe.low < 0.0 && 0.0 < fe.high ==> r.low == 0.0 && r.high == Max(-fe.low, fe.high)
    ensures Checked(fe) ==> Checked(r) && 0.0 <= r.low
    ensures forall x :: Encloses(fe, x) ==> Encloses(r, if x < 0.0 then -x else x)
  {
    if fe.low >= 0.0 then fe
    else if fe.high <= 0.0 then EFloat(-fe.v, -fe.high, -fe.low)
    else EFloat(if fe.v < 0.0 then -fe.v else fe.v, 0.0, Max(-fe.low, fe.high))
  }
}
