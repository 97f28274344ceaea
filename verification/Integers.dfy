/** Rust's integer operations where they differ from mathematical ones. */
module Integers {
  const I64_MIN: int := -0x8000_0000_0000_0000
  const I64_MAX: int := 0x7fff_ffff_ffff_ffff

  function Min(a: int, b: int): int {
    if a < b then a else b
  }

  function Max(a: int, b: int): int {
    if a < b then b else a
  }

  /** Integer division rounds toward zero. */
  function TruncDiv(a: int, b: int): int
    requires 0 < b
  {
    if a >= 0 then a / b else -(-a / b)
  }

  /** `as i64` keeps the low sixty-four bits. */
  function AsI64(n: nat): int {
    var w := n % 0x1_0000_0000_0000_0000;
    if w > I64_MAX then w - 0x1_0000_0000_0000_0000 else w
  }

  /** `saturating_sub`. */
  function SaturatingSub(a: nat, b: nat): nat {
    if a < b then 0 else a - b
  }
}
