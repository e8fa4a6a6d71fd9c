/** Python's two-argument `max` and `min` on integers. */
module Numeric {

  function Max(a: int, b: int): int { if a >= b then a else b }

  function Min(a: int, b: int): int { if a <= b then a else b }
}
