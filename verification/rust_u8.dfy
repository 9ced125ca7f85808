/**
  Rust's unsigned integer types and the `-` operator on `u8`.

  Rust's `u8` subtraction behaves differently per build profile: with
  overflow checks on (the debug profile) an underflow panics; with them off
  (the release profile) the result wraps modulo 256. A panic is modelled as
  `None`.
 */
module RustU8 {
  import opened Wrappers

  const U8_MAX: int := 255
  const U32_MAX: int := 0xFFFF_FFFF

  type U8 = x: int | 0 <= x <= U8_MAX
  type U32 = x: int | 0 <= x <= U32_MAX

  /** The build profile, which decides what an arithmetic overflow does. */
  datatype Profile = Debug | Release

  /** `a - b` with overflow checks on: panics exactly when `b > a`. */
  function CheckedSub(a: U8, b: U8): (r: Option<U8>)
    ensures r.Some? <==> b <= a
    ensures r.Some? ==> r.value + b == a
  {
    if b <= a then Some(a - b) else None
  }

  /** `a - b` with overflow checks off: the difference reduced modulo 256. */
  function WrappingSub(a: U8, b: U8): (r: U8)
    ensures (r + b) % (U8_MAX + 1) == a
    ensures b <= a ==> r + b == a
    ensures a < b ==> r + b == a + U8_MAX + 1
  {
    (a - b) % (U8_MAX + 1)
  }

  /** `a - b` as compiled under `profile`. */
  function Sub(profile: Profile, a: U8, b: U8): (r: Option<U8>)
    ensures profile == Release ==> r.Some?
    ensures profile == Debug ==> (r.Some? <==> b <= a)
    ensures b <= a ==> r == Some(a - b)
    ensures profile == Release && a < b ==> r.value + b == a + U8_MAX + 1
  {
    match profile
    case Debug => CheckedSub(a, b)
    case Release => Some(WrappingSub(a, b))
  }

  /** Reference definition: the difference clamped at zero (Rust's `saturating_sub`). */
  function SaturatingSub(a: U8, b: U8): (d: U8)
  {
    if b <= a then a - b else 0
  }

}
