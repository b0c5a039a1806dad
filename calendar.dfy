/**
 * Python's `datetime` as the source uses it: a calendar date (a day number)
 * and a time of day at one-second resolution.
 */
module Calendar {

  const SecondsPerHour: int := 3600
  const SecondsPerDay: int := 86400

  type SecondOfDay = s: int | 0 <= s < 86400

  /** `day` counts calendar days; `second` is the time of day. */
  datatype DateTime = DateTime(day: int, second: SecondOfDay)
  {
    /** Seconds since the start of day 0: orders date-times as Python compares them. */
    function Stamp(): int
    {
      day * SecondsPerDay + second
    }
  }

  /** `dt.replace(hour=0, minute=0, second=0, microsecond=0)`. */
  function Midnight(dt: DateTime): (m: DateTime)
    ensures m.second == 0 && m.day == dt.day
    ensures m.Stamp() <= dt.Stamp() < m.Stamp() + SecondsPerDay
  {
    DateTime(dt.day, 0)
  }

  /** Comparing date-times by stamp orders their calendar dates the same way. */
  lemma StampOrdersDays(a: DateTime, b: DateTime)
    ensures a.Stamp() <= b.Stamp() ==> a.day <= b.day
    ensures a.day < b.day ==> a.Stamp() < b.Stamp()
  {
  }
}
