// Shared numeric vocabulary of the renderer model.
//
// Coordinates, colours and tolerances are f32 in the renderer; here they are
// exact reals.  The transcendental functions the renderer borrows from the
// f32 library are not defined here: they travel as the fields of a `Libm`
// value that callers pass in, so every fact proved about the model holds for
// any implementation of them.  Rounding to integers (ceil, floor, truncation)
// is exact on reals and is defined outright.
module Numerics {

  /** The f32 library operations the renderer calls, left uninterpreted. */
  datatype Libm = Libm(
    sqrt: real -> real,
    acos: real -> real,
    atan2: (real, real) -> real,   // atan2(y, x)
    sin: real -> real,
    cos: real -> real,
    tan: real -> real)

  /** What a correct square root promises; lemmas that need more than an
      uninterpreted `sqrt` assume exactly this of it. */
  ghost predicate IsSqrt(sqrt: real -> real)
  {
    forall v: real {:trigger sqrt(v)} :: 0.0 <= v ==> 0.0 <= sqrt(v) && sqrt(v) * sqrt(v) == v
  }

  /** std::f32::consts::PI, the value the renderer's angles are measured in. */
  const PI: real := 3.1415927410125732

  /** f32::MAX; f32::MIN is its negation. */
  const F32_MAX: real := 340282346638528859811704183484516925440.0

  /** i32::MAX, where f32-to-i32 casts saturate. */
  const I32_MAX: int := 0x7fff_ffff

  function Min(a: real, b: real): (r: real)
    ensures r <= a && r <= b && (r == a || r == b)
  {
    if a < b then a else b
  }

  function Max(a: real, b: real): (r: real)
    ensures r >= a && r >= b && (r == a || r == b)
  {
    if a > b then a else b
  }

  function Abs(a: real): (r: real)
    ensures 0.0 <= r && (r == a || r == -a)
  {
    if a < 0.0 then -a else a
  }

  /** `clamped(lo, hi)`: below `lo` gives `lo`, above `hi` gives `hi`. */
  function Clamp(x: real, lo: real, hi: real): (r: real)
    requires lo <= hi
    ensures lo <= r <= hi
    ensures lo <= x <= hi ==> r == x
  {
    if x < lo then lo else if x > hi then hi else x
  }

  /** `f32::ceil`: the least integer not below `x`. */
  function Ceil(x: real): (n: int)
    ensures x <= n as real < x + 1.0
  {
    -((-x).Floor)
  }

  /** `f32::trunc` / the integer part kept by an `as` cast: rounds toward zero. */
  function Trunc(x: real): (n: int)
    ensures 0.0 <= x ==> n as real <= x < n as real + 1.0 && 0 <= n
    ensures x < 0.0 ==> x <= n as real && n as real - 1.0 < x && n <= 0
  {
    if 0.0 <= x then x.Floor else -((-x).Floor)
  }

  /** A saturating `as i32` of an integer-valued float. */
  function SaturateI32(n: int): (r: int)
    ensures -I32_MAX - 1 <= r <= I32_MAX
    ensures -I32_MAX - 1 <= n <= I32_MAX ==> r == n
    ensures n > I32_MAX ==> r == I32_MAX
    ensures n < -I32_MAX - 1 ==> r == -I32_MAX - 1
  {
    if n > I32_MAX then I32_MAX else if n < -I32_MAX - 1 then -I32_MAX - 1 else n
  }

  function ClampInt(n: int, lo: int, hi: int): (r: int)
    requires lo <= hi
    ensures lo <= r <= hi
    ensures lo <= n <= hi ==> r == n
  {
    if n < lo then lo else if n > hi then hi else n
  }
}
