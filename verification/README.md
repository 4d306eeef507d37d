# openacademy Session rules

A model of the per-record rules of the `openacademy.session` model of the
openacademy training-management module: the taken-seats percentage, the
two-way end date / duration pair, the attendee count, the blocking rule that
an instructor may not attend their own session, the non-blocking seats
advisory shown while editing, and (as an idealisation over exact rationals)
the two-way hours / duration pair.

A Session is an immutable datatype (`Sessions.Session`): start and end dates
are optional day ordinals, the duration is a whole number of days with 0
standing for an empty field, the seat count is an integer with 0 standing for
an empty field, the instructor is an optional partner id and the attendees are
a set of partner ids. Each rule is a pure function of one record; the end-date
pair and the instructor constraint are also modelled over a sequence of
records (`EndDate.ComputeEndDates`, `EndDate.SetEndDates`,
`Constraints.CheckInstructorNotInAttendees`); the other rules are modelled per
record.

The end-date rule is modelled at the resolution the code uses: a date's
datetime is its midnight in seconds, the forward rule adds the duration in
days and subtracts one second, then truncates to a date (`Calendar.DateOf`);
the inverse takes the `days` of the difference (`Calendar.WholeDays`) and adds
one.

The end-date round trip is not total: with a zero (unset) duration the code
sets the end date to the start date, which reads back as a duration of 1
(`EndDate.ZeroDurationReadsBackAsOne`). The round trip holds for every nonzero
whole-day duration, negative ones included.

Modules: `Options` (Option / Outcome), `Calendar` (day ordinals and
datetimes), `Sessions` (the record), `EndDate`, `Seats`, `Constraints`,
`Hours`.

## Model

| member | source | states |
|---|---|---|
| Calendar.DateOf | openacademy/models/models.py:86-88 | truncating a datetime to its date gives the day whose midnight is at or before it and whose next midnight is after it |
| Calendar.WholeDays | openacademy/models/models.py:97-99 | the `days` of a time difference is the largest whole number of days not exceeding it |
| EndDate.EndDateOf | openacademy/models/models.py:77-88 | no start date gives no end date; a zero duration gives the start date; otherwise start + one-second-short run of d days lands on start + d - 1 |
| EndDate.DurationOf | openacademy/models/models.py:95-99 | the inverse of two dates is end - start + 1, and is non-positive exactly when the end precedes the start |
| EndDate.ComputeEndDate | openacademy/models/models.py:77-88 | recomputing a record changes only its end date, to the start date when start or duration is unset and to start + duration - 1 otherwise |
| EndDate.SetEndDate | openacademy/models/models.py:90-99 | editing the end date changes only the duration, to end - start + 1 when both dates are set, and leaves the record untouched otherwise |
| EndDate.DurationRoundTrip | openacademy/models/models.py:77-99 | for every nonzero whole-day duration, the derived end date reads back as that duration |
| EndDate.ComputeThenSetEndDate | openacademy/models/models.py:77-99 | with a start date and a nonzero duration, the recomputed record is consistent and the inverse leaves it unchanged |
| EndDate.ZeroDurationReadsBackAsOne | openacademy/models/models.py:80-82 | with a zero duration the end date is the start date and the inverse turns the duration into 1, so the round trip is not total |
| EndDate.SetThenComputeEndDate | openacademy/models/models.py:77-99 | an edited end date survives recomputation unless it is the day before the start, where the duration becomes 0 and the end date snaps back to the start |
| EndDate.ComputeEndDateIdempotent | openacademy/models/models.py:77-88 | recomputing the end date twice gives the same record as once |
| EndDate.MondayPlusFiveEndsFriday | openacademy/models/models.py:84-99 | Monday 1 January 2024 plus five days ends on Friday 5 January, which reads back as five days |
| EndDate.ComputeEndDates | openacademy/models/models.py:78-88 | over a batch, each record has only its end date recomputed and ends consistent with its own start date and duration |
| EndDate.SetEndDates | openacademy/models/models.py:90-99 | over a batch, records with both dates get duration end - start + 1, the others pass through unchanged, and no other field changes |
| Seats.TakenSeats | openacademy/models/models.py:36-42 | 0 when seats is zero or unset; otherwise the percentage times the seats equals 100 times the attendees, with no clamping |
| Seats.AttendeesCount | openacademy/models/models.py:119-122 | the count is the number of attendees, and is 0 exactly when there are none |
| Seats.AttendeesCountTracksMembership | openacademy/models/models.py:119-122 | adding a partner raises the count by one unless already attending; removing one lowers it by one exactly when attending |
| Seats.VerifyValidSeats | openacademy/models/models.py:46-61 | negative seats warn "negative seats" first; otherwise fewer seats than attendees warn "too many attendees"; otherwise no warning, both directions |
| Seats.AdvisoryAgreesWithTakenSeats | openacademy/models/models.py:36-61 | with positive seats, no warning exactly when the percentage is within 0..100, and "too many attendees" exactly when it exceeds 100 |
| Seats.NegativeSeatsTakePrecedence | openacademy/models/models.py:48-54 | negative seats always give the negative-seats warning, and a percentage that is not positive |
| Seats.UnsetSeatsDisagree | openacademy/models/models.py:39-55 | with seats unset (0) and at least one attendee, the percentage is 0 while the advisory reports too many attendees |
| Seats.TenSeatsThreeAttendees | openacademy/models/models.py:36-61 | ten seats and three attendees give 30 percent and no warning |
| Constraints.CheckRecord | openacademy/models/models.py:67-68 | one record fails exactly when some partner is both its instructor and an attendee, and the failure names that partner |
| Constraints.CheckInstructorNotInAttendees | openacademy/models/models.py:64-68 | a batch passes exactly when every record passes; a failure names the first offending record |
| Constraints.AllValidSplits | openacademy/models/models.py:65-68 | a batch is valid exactly when both of its parts are |
| Constraints.RemovingInstructorRepairs | openacademy/models/models.py:67 | removing the instructor from the attendees, or clearing the instructor, makes the record pass |
| Hours.HoursOf | openacademy/models/models.py:106-109 | hours divided by 24 give back the duration |
| Hours.DurationOfHours | openacademy/models/models.py:111-113 | the duration times 24 gives back the hours |
| Hours.HoursRoundTrip | openacademy/models/models.py:106-113 | each of the two hours rules undoes the other |

## Left out

- Fractional-day durations in the end-date rule: durations are whole days, so the one-second subtraction always lands on the previous day's last second; `digits=(6, 2)` rounding of the duration is not modelled.
- Hours.HoursOf: exact rational arithmetic, not floating point; and the hours pair works on its own rational duration rather than the whole-day duration of `Sessions.Session`, since its inverse would produce fractional days.
- Hours.HoursRoundTrip: holds only in the exact-rational idealisation. The inverse stores hours / 24 into a duration field kept to hundredths of a day (openacademy/models/models.py:23, 113), so entering 1 hour stores 0.04 days, which reads back as 0.96 hours; that rounding is not modelled.
- Seats.TakenSeats: exact rational division, not floating point.
- Date range limits: day ordinals are unbounded integers, so the overflow error the date type raises beyond its last representable day is not modelled.
- Warning and error message texts, the warning dictionary shape and the validation-error plumbing: the model returns a `Seats.Warning` kind and a `Constraints.ConstraintError` naming the offending record.
- The framework's recompute engine, dependency lists, `store=True`, defaults (today's date as start date), required fields and on-delete policies: framework behaviour, not logic of this module.
- The interactive-only triggering of the seats advisory: the model states the rule, not when the client calls it.
- `Course`, the `name`, `active`, `course` and `color` fields of a Session, and the partner extension in openacademy/models/partner.py: schema only, with no logic.
