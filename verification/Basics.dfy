/** Machine integers, saturation, truncating division and the clock. */
module Basics {

  type u32 = x: int | 0 <= x < 0x1_0000_0000
  type i32 = x: int | -0x8000_0000 <= x <= 0x7fff_ffff
  type i16 = x: int | -0x8000 <= x <= 0x7fff

  datatype Option<+T> = None | Some(value: T)

  datatype Result<+T, +E> = Ok(value: T) | Err(error: E)

  /** Instants and durations, in nanoseconds of a monotonic clock. */
  type Instant = nat

  const MILLISECOND: nat := 1_000_000
  const SECOND: nat := 1000 * MILLISECOND

  /** Time passed since an instant; zero when the instant lies ahead. */
  function Elapsed(since: Instant, now: Instant): nat {
    if now >= since then now - since else 0
  }

  /** Whole milliseconds passed, rounded down. */
  function ElapsedMillis(since: Instant, now: Instant): nat {
    Elapsed(since, now) / MILLISECOND
  }

  function Min(a: int, b: int): int {
    if a <= b then a else b
  }

  function Max(a: int, b: int): int {
    if a >= b then a else b
  }

  function Abs(a: int): nat {
    if a < 0 then -a else a
  }

  function Signum(a: int): int {
    if a < 0 then -1 else if a == 0 then 0 else 1
  }

  function Clamp(value: int, low: int, high: int): int {
    if value < low then low else if value > high then high else value
  }

  function SaturateI32(value: int): i32 {
    Clamp(value, -0x8000_0000, 0x7fff_ffff)
  }

  function SaturateU32(value: nat): u32 {
    Min(value, 0xffff_ffff)
  }

  /** Division that rounds toward zero, as the machine does. */
  function TruncDiv(a: int, b: int): int
    requires b > 0
  {
    if a >= 0 then a / b else -((-a) / b)
  }
}
