/** Time, durations and the optional value shared by every component.
    Instants and durations are natural numbers of nanoseconds. */
module Basics {

  type Time = nat
  type Duration = nat

  const SECOND: nat := 1_000_000_000
  const MINUTE: nat := 60 * SECOND
  const HOUR: nat := 60 * MINUTE
  const DAY: nat := 24 * HOUR

  /** Longest hold a single `Retry-After` hint can impose. */
  const MAX_RETRY_AFTER_HOLD: Duration := 5 * MINUTE

  datatype Option<+T> = None | Some(value: T)

  function Min(a: nat, b: nat): nat { if a <= b then a else b }

  function Max(a: nat, b: nat): nat { if a <= b then b else a }

  /** Subtraction that stops at zero, as `Duration::saturating_sub`. */
  function SatSub(a: nat, b: nat): nat { if b <= a then a - b else 0 }

  function GetOr<T>(o: Option<T>, default: T): T {
    if o.Some? then o.value else default
  }
}
