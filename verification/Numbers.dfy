/** Bounds and doublings, shared by the modules that back off. */
module Numbers {

  function Min(a: int, b: int): int { if a < b then a else b }

  function Clamp(n: int, low: int, high: int): int { if n < low then low else if n > high then high else n }

  function Pow2(n: nat): (p: nat)
    ensures p >= 1
  {
    if n == 0 then 1 else 2 * Pow2(n - 1)
  }
}
