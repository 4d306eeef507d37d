/** Day-ordinal dates and second-resolution datetimes, as far as the
    end-date rules of a Session use them. A date is a day ordinal; the
    datetime of a date is its midnight, counted in seconds. */
module Calendar {

  /** A calendar date as a day ordinal (day 1 is a Monday, as in the
      proleptic Gregorian ordinal). */
  type Day = int

  const SecondsPerDay: int := 86400

  /** The datetime at midnight of day `d`, in seconds. */
  function Midnight(d: Day): int
  {
    d * SecondsPerDay
  }

  /** The date a datetime falls on: truncating a datetime to its date
      rounds towards the earlier day, also for datetimes before day 0. */
  function DateOf(t: int): (d: Day)
    ensures Midnight(d) <= t < Midnight(d + 1)
  {
    t / SecondsPerDay
  }

  /** The `days` component of a time difference of `t` seconds: the
      largest whole number of days not exceeding it. */
  function WholeDays(t: int): (n: int)
    ensures n * SecondsPerDay <= t < (n + 1) * SecondsPerDay
  {
    t / SecondsPerDay
  }

  /** The weekday of a date, 0 for Monday through 6 for Sunday. */
  function Weekday(d: Day): (w: int)
    ensures 0 <= w < 7
  {
    (d - 1) % 7
  }
}
