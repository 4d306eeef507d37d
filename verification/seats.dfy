/** The seat-related rules of a Session: the taken-seats percentage, the
    attendee count, and the non-blocking seats advisory shown while a
    record is edited. */
module Seats {
  import opened Options
  import opened Sessions

  /** The percentage of seats taken. An unset (zero) seat count gives 0;
      otherwise it is 100 times the attendees over the seats, not clamped,
      so an overbooked session reads above 100 and a negative seat count
      reads below 0. The value is an exact rational, an idealisation of the
      floating-point division. */
  function TakenSeats(s: Session): (p: real)
    ensures s.seats == 0 ==> p == 0.0
    ensures s.seats != 0 ==> p * (s.seats as real) == 100.0 * (|s.attendees| as real)
  {
    if s.seats == 0 then 0.0
    else 100.0 * (|s.attendees| as real) / (s.seats as real)
  }

  /** The stored attendee count. */
  function AttendeesCount(s: Session): (n: nat)
    ensures n == |s.attendees|
    ensures n == 0 <==> s.attendees == {}
  {
    |s.attendees|
  }

  /** The two advisories, in the order they are checked. */
  datatype Warning = NegativeSeats | TooManyAttendees

  /** The advisory raised when seats or attendees change interactively.
      A negative seat count takes precedence; otherwise fewer seats than
      attendees is reported; otherwise there is nothing to report. The rule
      is total and returns only a warning, never a changed record or a
      blocking outcome. */
  function VerifyValidSeats(s: Session): (w: Option<Warning>)
    ensures w == Some(NegativeSeats) <==> s.seats < 0
    ensures w == Some(TooManyAttendees) <==> 0 <= s.seats < |s.attendees|
    ensures w == None <==> |s.attendees| <= s.seats
  {
    if s.seats < 0 then Some(NegativeSeats)
    else if s.seats < |s.attendees| then Some(TooManyAttendees)
    else None
  }

  /** With a positive seat count, the taken-seats percentage lies between 0
      and 100 exactly when no advisory is raised, and exceeds 100 exactly
      when the session is reported as having too many attendees. */
  lemma AdvisoryAgreesWithTakenSeats(s: Session)
    requires s.seats > 0
    ensures VerifyValidSeats(s) == None <==> 0.0 <= TakenSeats(s) <= 100.0
    ensures VerifyValidSeats(s) == Some(TooManyAttendees) <==> TakenSeats(s) > 100.0
  {
    var p, n, m := TakenSeats(s), |s.attendees| as real, s.seats as real;
    assert (p - 100.0) * m == 100.0 * (n - m);
    if n <= m {
      PositiveFactor(100.0 - p, m);
    } else {
      PositiveFactor(p - 100.0, m);
    }
  }

  /** Dividing a product by a positive factor keeps its sign. */
  lemma PositiveFactor(x: real, m: real)
    requires m > 0.0
    ensures x * m > 0.0 ==> x > 0.0
    ensures x * m >= 0.0 ==> x >= 0.0
  {
  }

  /** The one input where the two seat rules disagree: with the seat count
      unset, any attendee makes the advisory report too many attendees,
      while the percentage stays 0. */
  lemma UnsetSeatsDisagree(s: Session)
    requires s.seats == 0 && |s.attendees| > 0
    ensures TakenSeats(s) == 0.0
    ensures VerifyValidSeats(s) == Some(TooManyAttendees)
  {
  }

  /** A negative seat count is always reported as such, and the
      percentage it yields is never positive. */
  lemma NegativeSeatsTakePrecedence(s: Session)
    requires s.seats < 0
    ensures VerifyValidSeats(s) == Some(NegativeSeats)
    ensures TakenSeats(s) <= 0.0
  {
  }

  /** Adding a partner raises the count by one unless they already attend;
      removing one lowers it by one exactly when they did attend. */
  lemma AttendeesCountTracksMembership(s: Session, p: PartnerId)
    ensures AttendeesCount(s.(attendees := s.attendees + {p})) ==
              if p in s.attendees then AttendeesCount(s) else AttendeesCount(s) + 1
    ensures AttendeesCount(s.(attendees := s.attendees - {p})) ==
              if p in s.attendees then AttendeesCount(s) - 1 else AttendeesCount(s)
  {
  }

  /** Ten seats and three attendees give 30 percent and no advisory. */
  lemma TenSeatsThreeAttendees(s: Session)
    requires s.seats == 10 && |s.attendees| == 3
    ensures TakenSeats(s) == 30.0
    ensures VerifyValidSeats(s) == None
  {
  }
}
