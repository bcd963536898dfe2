/** Local wall-clock time as the pages read it through `new Date()`: an instant is a count of
    milliseconds since local midnight at the start of day 0, and day 0 is Sunday 28 December 1969,
    so that a day's `getDay()` weekday (0 = Sunday … 6 = Saturday) is the day index modulo 7. */
module Clock {

  const MsPerSecond: int := 1000
  const MsPerMinute: int := 60 * MsPerSecond
  const MsPerHour: int := 60 * MsPerMinute
  const MsPerDay: int := 24 * MsPerHour

  /** The local day an instant falls on. */
  function DayOf(t: int): int {
    t / MsPerDay
  }

  /** `getDay()` of a day: 0 = Sunday … 6 = Saturday. */
  function Weekday(day: int): (w: int)
    ensures 0 <= w < 7
  {
    day % 7
  }

  /** The instant `hh:mm:ss.000` on `day`. */
  function At(day: int, hh: int, mm: int, ss: int): int {
    day * MsPerDay + hh * MsPerHour + mm * MsPerMinute + ss * MsPerSecond
  }
}
