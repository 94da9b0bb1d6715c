/**
 * Instants and durations as .NET represents them: a count of 100-nanosecond
 * ticks. An instant is the number of ticks since DateTime.MinValue
 * (0001-01-01 00:00), so DateTime.MinValue itself is 0.
 */
module Clock {

  const TicksPerMinute: int := 600_000_000
  const TicksPerDay: int := 864_000_000_000

  /** DateTime.MinValue. */
  const MinValue: int := 0

  /** TimeSpan.FromMinutes(m). */
  function Minutes(m: int): int {
    m * TicksPerMinute
  }

  /** TimeSpan.FromDays(d). */
  function Days(d: int): int {
    d * TicksPerDay
  }

  /** The calendar day of an instant (DateTime.Date, DateOnly.FromDateTime), as a day number. */
  function DateOf(t: int): int {
    t / TicksPerDay
  }

  /** DateTime.TimeOfDay: the ticks elapsed since midnight. */
  function TimeOfDay(t: int): (r: int)
    ensures 0 <= r < TicksPerDay
    ensures t == DateOf(t) * TicksPerDay + r
  {
    t % TicksPerDay
  }
}
