/** src/core/math.h: `sign`, `clamp` and the float constants. */
module CoreMath {
  import opened Numerics

  /** `std::numeric_limits<float>::max()`, the largest finite float. */
  const MaxFloat: real := 340282346638528859811704183484516925440.0

  /** `Pi` as stored in a `float`. */
  const Pi: real := 3.1415927410125732421875

  /** `sign(a)`: -1 for negative arguments and 1 otherwise, zero included. */
  function Sign(a: real): (r: int)
    ensures r == -1 <==> a < 0.0
    ensures r == 1 <==> 0.0 <= a
  {
    if a < 0.0 then -1 else 1
  }

  /** The sign recovers `a` from its magnitude. */
  lemma SignTimesMagnitude(a: real)
    ensures a == Sign(a) as real * (if a < 0.0 then -a else a)
  {
  }

  /** `clamp(v, lo, hi)` is `max(lo, min(v, hi))`. */
  function Clamp(v: real, lo: real, hi: real): (r: real)
    ensures lo <= hi ==> lo <= r <= hi
    ensures lo <= v <= hi ==> r == v
    ensures hi < lo ==> r == lo
    ensures lo <= hi && v < lo ==> r == lo
    ensures lo <= hi && hi < v ==> r == hi
  {
    Max(lo, Min(v, hi))
  }

  /** Clamping twice is clamping once (for a well-formed range). */
  lemma ClampIdempotent(v: real, lo: real, hi: real)
    requires lo <= hi
    ensures Clamp(Clamp(v, lo, hi), lo, hi) == Clamp(v, lo, hi)
  {
  }
}
