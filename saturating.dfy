/**
 * Unsigned machine integers (`usize` on a 64-bit target) and the saturating
 * and checked operations the cursor uses on them.
 */
module Saturating {
  import opened Wrappers

  const USIZE_MAX: nat := 0xFFFF_FFFF_FFFF_FFFF

  /** A value of Rust's `usize`. */
  type Usize = x: nat | x <= USIZE_MAX

  /** `a.saturating_add(b)`: the sum, stuck at the largest `usize`. */
  function SaturatingAdd(a: Usize, b: Usize): (r: Usize)
    ensures a + b <= USIZE_MAX ==> r == a + b
    ensures a + b > USIZE_MAX ==> r == USIZE_MAX
    ensures a <= r
  {
    if a + b <= USIZE_MAX then a + b else USIZE_MAX
  }

  /** `a.saturating_sub(b)`: the difference, stuck at zero. */
  function SaturatingSub(a: nat, b: nat): (r: nat)
    ensures b <= a ==> r + b == a
    ensures a < b ==> r == 0
    ensures r <= a
  {
    if b <= a then a - b else 0
  }

  /** `a.checked_sub(b)`: the difference, or nothing when it would be negative. */
  function CheckedSub(a: Usize, b: Usize): (r: Option<Usize>)
    ensures r.Some? <==> b <= a
    ensures r.Some? ==> r.value + b == a
  {
    if b <= a then Some(a - b) else None
  }

  function Min(a: nat, b: nat): nat { if a <= b then a else b }

  function Max(a: nat, b: nat): nat { if a <= b then b else a }
}
