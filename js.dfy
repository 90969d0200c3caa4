/** The JavaScript number operations the pages rely on, on integers. */
module Js {
  import opened Types

  /** `x || d` on an optional number: `undefined` and `0` are falsy and
      give the default, any other number is kept. */
  function Or(x: Option<int>, d: int): (r: int)
    ensures r == d || (x.Some? && r == x.value)
    ensures r == d <==> x == None || x.value == 0 || x.value == d
  {
    if x.Some? && x.value != 0 then x.value else d
  }

  /** JavaScript `a % b`: the remainder of division truncated toward zero,
      which has the sign of `a`. */
  function Rem(a: int, b: int): (r: int)
    requires b != 0
    ensures a >= 0 ==> 0 <= r < if b > 0 then b else -b
    ensures a < 0 ==> -(if b > 0 then b else -b) < r <= 0
  {
    if a >= 0 then a % b else -((-a) % b)
  }

  /** The truncated remainder agrees with the mathematical (Euclidean)
      one on non-negative dividends. */
  lemma RemOfNonNegative(a: int, b: int)
    requires a >= 0 && b > 0
    ensures Rem(a, b) == a % b
  {
  }

  /** JavaScript `Math.round(n / d)` for a positive divisor: the nearest
      integer, halves rounded up. */
  function RoundDiv(n: int, d: int): (r: int)
    requires d > 0
    ensures 2 * d * r <= 2 * n + d < 2 * d * (r + 1)
  {
    (2 * n + d) / (2 * d)
  }
}
