/** Money as a signed 64-bit count of micro-dollars, with checked arithmetic
    (crates/penny-types/src/lib.rs). */
module Amounts {
  import opened Outcomes

  const I64_MIN: int := -0x8000_0000_0000_0000
  const I64_MAX: int := 0x7fff_ffff_ffff_ffff

  /** Micros in a dollar, and tokens in the unit a price is quoted for. */
  const SCALE: int := 1_000_000

  predicate InI64(x: int) {
    I64_MIN <= x <= I64_MAX
  }

  type Money = m: int | InI64(m)

  function CheckedAdd(a: Money, b: Money): Option<Money> {
    if InI64(a + b) then Some(a + b) else None
  }

  function CheckedSub(a: Money, b: Money): Option<Money> {
    if InI64(a - b) then Some(a - b) else None
  }

  /** The sum when it fits, and the largest amount when it does not; the previews use it. */
  function SaturatedAdd(a: Money, b: Money): Money {
    match CheckedAdd(a, b)
    case Some(sum) => sum
    case None => I64_MAX
  }
}
