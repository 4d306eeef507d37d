/** The stored fields of an `openacademy.session` record that its rules read
    or write. Name, course, active flag and color carry no logic and are not
    modelled. */
module Sessions {
  import opened Options
  import opened Calendar

  /** A `res.partner` record, identified by its database id. */
  newtype PartnerId = x: int | 0 < x witness 1

  /** One Session record.
      - `duration` is a whole number of days; 0 is what an empty duration reads as.
      - `seats` is the seat capacity; 0 is what an empty seat count reads as,
        and a user may enter a negative value. */
  datatype Session = Session(
    start_date: Option<Day>,
    end_date: Option<Day>,
    duration: int,
    seats: int,
    instructor: Option<PartnerId>,
    attendees: set<PartnerId>
  )
}
