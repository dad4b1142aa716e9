/** Small datatypes and numeric types shared by every module. */
module Prelude {

  datatype Option<+T> = None | Some(value: T)

  datatype Result<+T, +E> = Success(value: T) | Failure(error: E)

  /** The unit value of a `Result` that carries nothing. */
  datatype Unit = Unit

  type byte = x: int | 0 <= x < 256

  type u32 = x: int | 0 <= x < 0x1_0000_0000

  // Durations and instants are counted in whole nanoseconds, the resolution of
  // `std::time::Duration`.
  type Nanos = nat

  const MILLISECOND: Nanos := 1_000_000
  const SECOND: Nanos := 1_000_000_000

  // `Duration::MAX`: u64::MAX seconds and 999_999_999 nanoseconds.
  const MAX_DURATION: Nanos := 0xFFFF_FFFF_FFFF_FFFF * 1_000_000_000 + 999_999_999

  function Min(a: int, b: int): int {
    if a < b then a else b
  }

  function Max(a: int, b: int): int {
    if a < b then b else a
  }

  /** `Duration::saturating_add`. */
  function SaturatingAdd(a: Nanos, b: Nanos): Nanos {
    Min(a + b, MAX_DURATION)
  }
}
