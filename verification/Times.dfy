/** Clock readings and their rows. */
module Times {

  /** Nanoseconds since the epoch. Rows store whole milliseconds. */
  type Instant = int

  /** Nanoseconds. */
  type Duration = int

  const MS: Duration := 1_000_000

  /** Row timestamps round toward minus infinity, as time.Time.UnixMilli does. */
  function Millis(t: Instant): int {
    t / MS
  }
}
