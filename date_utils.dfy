/** The date helpers: a closed date window starting at "now" and exact-instant
    membership. Instants are integer milliseconds; the wall clock is the
    parameter `now`. */
module DateUtils {

  /** One calendar day in milliseconds (time zones and daylight saving are not modelled). */
  const DAY: int := 86_400_000

  /** The last instant of a window of `duration` days opened at `now`. */
  function WindowEnd(now: int, duration: int): int
  {
    now + duration * DAY
  }

  /** `isDateWithinRange(date, duration)`: not before now and not after now plus
      `duration` days, both ends included. */
  function IsDateWithinRange(date: int, duration: int, now: int): (b: bool)
    ensures b ==> duration >= 0
    ensures date == now && duration >= 0 ==> b
  {
    now <= date && date <= WindowEnd(now, duration)
  }

  /** No instant before now is within range, whatever the duration. */
  lemma PastIsOutOfRange(date: int, duration: int, now: int)
    requires date < now
    ensures !IsDateWithinRange(date, duration, now)
  {
  }

  /** A longer window contains a shorter one. */
  lemma WithinRangeMonotone(date: int, d: int, d': int, now: int)
    requires d <= d'
    requires IsDateWithinRange(date, d, now)
    ensures IsDateWithinRange(date, d', now)
  {
  }

  /** `isDateScheduled(date, scheduledDates)`: `some` over exact instants. */
  function IsDateScheduled(date: int, dates: seq<int>): (b: bool)
    ensures b <==> date in dates
  {
    if dates == [] then false else dates[0] == date || IsDateScheduled(date, dates[1..])
  }
}
