/** The two-way hours field of a Session: hours derived from the duration
    in days, and a duration derived back when hours are edited. Durations
    and hours are exact rationals here, an idealisation of the
    floating-point fields. */
module Hours {

  const HoursPerDay: real := 24.0

  /** The forward rule: a duration in days, expressed in hours. */
  function HoursOf(duration: real): (h: real)
    ensures h / HoursPerDay == duration
    ensures duration >= 0.0 ==> h >= duration
  {
    duration * HoursPerDay
  }

  /** The inverse rule: a number of hours, expressed in days. */
  function DurationOfHours(hours: real): (d: real)
    ensures d * HoursPerDay == hours
    ensures hours >= 0.0 ==> d <= hours
  {
    hours / HoursPerDay
  }

  /** Each rule undoes the other. */
  lemma HoursRoundTrip(duration: real, hours: real)
    ensures DurationOfHours(HoursOf(duration)) == duration
    ensures HoursOf(DurationOfHours(hours)) == hours
  {
  }
}
