/** The language's `int` is a signed 64-bit integer. Arithmetic on it is
    modelled with explicit two's-complement wrap-around. */
module Int64 {

  const MIN: int := -0x8000_0000_0000_0000
  const MAX: int := 0x7fff_ffff_ffff_ffff
  const MODULUS: int := 0x1_0000_0000_0000_0000

  predicate InRange(x: int) {
    MIN <= x <= MAX
  }

  /** A value the language can store in an `int` variable. */
  type I64 = x: int | MIN <= x <= MAX

  /** The i64 value an unbounded result wraps to: the unique representative
      of `x` modulo 2^64 that lies in the i64 range. */
  function Wrap(x: int): (r: I64)
    ensures (r - x) % MODULUS == 0
    ensures InRange(x) ==> r == x
  {
    var m := x % MODULUS;
    if m <= MAX then m else m - MODULUS
  }

  /** For two non-negative i64 values, the sum wraps to a negative number
      exactly when the true sum exceeds MAX: a sign test on the wrapped sum
      is an overflow test. */
  lemma GuardDetectsOverflow(a: I64, b: I64)
    requires 0 <= a && 0 <= b
    ensures Wrap(a + b) < 0 <==> a + b > MAX
    ensures a + b <= MAX ==> Wrap(a + b) == a + b
  {
  }

  /** A sum that overshoots MAX by less than 2^63 wraps to that sum minus 2^64. */
  lemma WrapOverflowed(x: int)
    requires MAX < x < MODULUS
    ensures Wrap(x) == x - MODULUS
  {
    assert x % MODULUS == x;
  }

  /** Values that differ by a multiple of 2^64 wrap to the same i64. */
  lemma WrapCongruent(x: int, y: int)
    requires (x - y) % MODULUS == 0
    ensures Wrap(x) == Wrap(y)
  {
    var k := (x - y) / MODULUS;
    assert x == y + MODULUS * k;
    assert x % MODULUS == y % MODULUS;
  }

  /** Wrapping the operands of `+` first does not change the wrapped sum. */
  lemma WrapAdd(x: int, y: int)
    ensures Wrap(Wrap(x) + Wrap(y)) == Wrap(x + y)
  {
    var kx := (Wrap(x) - x) / MODULUS;
    var ky := (Wrap(y) - y) / MODULUS;
    assert Wrap(x) == x + MODULUS * kx;
    assert Wrap(y) == y + MODULUS * ky;
    assert (Wrap(x) + Wrap(y)) - (x + y) == MODULUS * (kx + ky);
    WrapCongruent(Wrap(x) + Wrap(y), x + y);
  }
}
