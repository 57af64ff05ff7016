/** The fixed-width integer arithmetic of Java that the model needs written out. */
module JavaInt {

  const TwoTo32: int := 0x1_0000_0000
  const IntMin: int := -0x8000_0000
  const IntMax: int := 0x7FFF_FFFF

  predicate InIntRange(x: int) {
    IntMin <= x <= IntMax
  }

  /** A Java `int` (or a non-null `Integer`). */
  type Int32 = x: int | InIntRange(x)

  /** Java's `int` arithmetic and `Long.intValue()`: keep the low 32 bits, two's complement. */
  function Wrap32(x: int): (r: int)
    ensures InIntRange(r)
    ensures (x - r) % TwoTo32 == 0
    ensures InIntRange(x) ==> r == x
  {
    var m := x % TwoTo32;
    if m > IntMax then m - TwoTo32 else m
  }

  /** Java's integer division, which truncates toward zero (Dafny's `/` is Euclidean). */
  function JavaDiv(a: int, b: int): (q: int)
    requires b > 0
    ensures a >= 0 ==> q * b <= a < q * b + b
    ensures a < 0 ==> q * b - b < a <= q * b
  {
    if a >= 0 then a / b else -((-a) / b)
  }
}
