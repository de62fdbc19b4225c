/** What JavaScript's Number does to a non-negative integer: round to the nearest double, ties to even. */
module Doubles {

  /** Below 2^53 every integer is a double. */
  const EXACT: nat := 0x20_0000_0000_0000

  /** The 53 leading bits of n, and the power of two that they count. */
  function Mantissa(n: nat): nat {
    if n < EXACT then n else Mantissa(n / 2)
  }

  function Spacing(n: nat): (unit: nat)
    ensures unit > 0
  {
    if n < EXACT then 1 else 2 * Spacing(n / 2)
  }

  /** The largest double up to n. */
  function RoundDown(n: nat): (double: nat)
    ensures double <= n < double + Spacing(n)
    ensures double == Mantissa(n) * Spacing(n)
    ensures if n < EXACT then double == n else double >= EXACT
  {
    if n < EXACT then n else 2 * RoundDown(n / 2)
  }

  /** The neighbouring doubles are RoundDown(n) and one spacing above it. */
  function Number(n: nat): (double: nat)
    ensures n < EXACT ==> double == n
    ensures n >= EXACT ==> double >= EXACT
    ensures 2 * n <= 2 * double + Spacing(n) && 2 * double <= 2 * n + Spacing(n)
  {
    var down, unit := RoundDown(n), Spacing(n);
    var excess := 2 * (n - down);
    if excess < unit || (excess == unit && Mantissa(n) % 2 == 0) then down else down + unit
  }
}
