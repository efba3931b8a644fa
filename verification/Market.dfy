/** What the services exchange: symbols, order sides, timestamps and daily bars. */
module Market {
  type Symbol = string

  /** The wire value of a side is a string; anything but the two known ones is OtherSide. */
  datatype Side = Buy | Sell | OtherSide

  /** Nanoseconds since the epoch, UTC. */
  type Time = int

  const NANOS_PER_DAY: int := 86_400_000_000_000

  /** The UTC calendar date of an instant, as a day number. */
  function Day(t: Time): int {
    t / NANOS_PER_DAY
  }

  datatype Bar = Bar(timestamp: Time, open: real, close: real)
}
