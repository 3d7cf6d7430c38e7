/** What every part of the model shares: an optional value, and the program's own
    durations and counts, in milliseconds. */
module Common {

  datatype Option<+T> = None | Some(value: T)

  /** A clock, read at the successive points a loop looks at it. */
  type Clock = nat -> int

  function Max(a: int, b: int): int { if a < b then b else a }

  function Min(a: int, b: int): int { if a < b then a else b }

  // The cadences of the holders that tick (gpu_cmd.go:1563-1574, 1654-1666, 1738-1741).
  const WRAPPER_TICK_EVERY := 15_000
  const HOLD_CONFIRM_PAUSE := 50
  const WRAPPER_FENCE_WINDOW := 10_000
  const WRAPPER_FENCE_POLL := 250
  const OUTER_REFRESH_EVERY := 30_000
  const OUTER_SLACK := 60_000
  const HOLD_BOUND_GRACE := 30_000
  const HOLD_POLL_EVERY := 1_000
  const HOLD_IO_RETRY_FOR := 30_000
  const HOLD_RELEASE_TRIES := 4
  const DETACHED_RELEASE_GRACE := 900_000
  const DRAIN_FLOOR := 120_000
  const MAX_LEASE_REQUEUES := 5

  // How long a heartbeat stays fresh (internal/gpulease/gpulease.go:112).
  const HEARTBEAT_TTL := 120_000
}
