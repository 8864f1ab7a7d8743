/** Powers of two, and the larger and smaller of two numbers. */
module Arithmetic {
  function Pow2(n: nat): (p: nat)
    ensures p > 0
  {
    if n == 0 then 1 else 2 * Pow2(n - 1)
  }

  function Max(a: int, b: int): int { if a >= b then a else b }

  function Min(a: nat, b: nat): nat { if a <= b then a else b }
}
