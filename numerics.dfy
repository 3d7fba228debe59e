/** Java's 32-bit int and the two conversions the engine relies on: int
    arithmetic that wraps around, and the (int) cast of a double, which
    truncates toward zero and saturates at the ends of the int range. */
module JavaNumerics {

  const INT_MIN: int := -0x8000_0000
  const INT_MAX: int := 0x7FFF_FFFF

  type Int32 = x: int | INT_MIN <= x <= INT_MAX

  /** The int that Java's two's-complement arithmetic leaves for the
      mathematical value x. */
  function Wrap32(x: int): (r: Int32)
    ensures INT_MIN <= x <= INT_MAX ==> r == x
    ensures (r - x) % 0x1_0000_0000 == 0
  {
    (x - INT_MIN) % 0x1_0000_0000 + INT_MIN
  }

  /** Rounding toward zero. */
  function Trunc(r: real): int {
    if r >= 0.0 then r.Floor else -((-r).Floor)
  }

  /** Java's (int) cast of a double that is not NaN: truncation toward zero,
      clamped to the int range. */
  function IntCast(r: real): Int32 {
    var t := Trunc(r);
    if t > INT_MAX then INT_MAX else if t < INT_MIN then INT_MIN else t
  }

  /** Trunc drops the fractional part, moving toward zero. */
  lemma TruncTowardZero(r: real)
    ensures 0.0 <= r ==> Trunc(r) as real <= r < Trunc(r) as real + 1.0
    ensures r < 0.0 ==> Trunc(r) as real - 1.0 < r <= Trunc(r) as real
    ensures Trunc(-r) == -Trunc(r)
  {
  }

  /** Inside the int range the cast truncates; outside it saturates. */
  lemma IntCastSaturates(r: real)
    ensures INT_MIN as real <= r < INT_MAX as real + 1.0 ==> IntCast(r) == Trunc(r)
    ensures r >= INT_MAX as real ==> IntCast(r) == INT_MAX
    ensures r <= INT_MIN as real ==> IntCast(r) == INT_MIN
  {
    TruncTowardZero(r);
  }

  /** Casting a whole number that fits in an int gives that number back. */
  lemma IntCastOfInt(n: Int32)
    ensures IntCast(n as real) == n
  {
  }
}
