/** The blocking rule of a Session: its instructor may not also be one of
    its attendees. The rule is checked record by record over the batch
    being written, and the first offending record rejects the whole write. */
module Constraints {
  import opened Options
  import opened Sessions

  /** The rejection raised by the rule, naming the position in the batch of
      the first record that breaks it. */
  datatype ConstraintError = InstructorIsAttendee(index: nat)

  /** One record breaks the rule: an instructor is set and attends. */
  predicate InstructorAttends(s: Session)
  {
    s.instructor.Some? && s.instructor.value in s.attendees
  }

  /** Every record of the batch satisfies the rule. */
  ghost predicate AllValid(batch: seq<Session>)
  {
    forall i :: 0 <= i < |batch| ==> !InstructorAttends(batch[i])
  }

  /** The rule on one record: it fails exactly when some partner is both the
      instructor and an attendee, and then names that partner. */
  function CheckRecord(s: Session): (r: Outcome<PartnerId>)
    ensures r.Fail? <==> exists p :: p in s.attendees && s.instructor == Some(p)
    ensures r.Fail? ==> s.instructor == Some(r.error) && r.error in s.attendees
  {
    if InstructorAttends(s) then Fail(s.instructor.value) else Pass
  }

  /** The rule over a batch, in order: it passes exactly when every record
      passes, and otherwise fails at the first record that does not. */
  method CheckInstructorNotInAttendees(batch: seq<Session>) returns (r: Outcome<ConstraintError>)
    ensures r.Pass? <==> AllValid(batch)
    ensures r.Fail? ==>
              && r.error.index < |batch|
              && InstructorAttends(batch[r.error.index])
              && AllValid(batch[..r.error.index])
  {
    var k := 0;
    while k < |batch|
      invariant 0 <= k <= |batch|
      invariant AllValid(batch[..k])
    {
      if CheckRecord(batch[k]).Fail? {
        return Fail(InstructorIsAttendee(k));
      }
      assert batch[..k + 1] == batch[..k] + [batch[k]];
      k := k + 1;
    }
    assert batch[..k] == batch;
    return Pass;
  }

  /** A batch passes exactly when both of its parts pass: records are
      checked independently of one another. */
  lemma {:induction false} AllValidSplits(a: seq<Session>, b: seq<Session>)
    ensures AllValid(a + b) <==> AllValid(a) && AllValid(b)
  {
    if AllValid(a + b) {
      forall i | 0 <= i < |a| ensures !InstructorAttends(a[i]) {
        assert a[i] == (a + b)[i];
      }
      forall i | 0 <= i < |b| ensures !InstructorAttends(b[i]) {
        assert b[i] == (a + b)[|a| + i];
      }
    }
    if AllValid(a) && AllValid(b) {
      forall i | 0 <= i < |a + b| ensures !InstructorAttends((a + b)[i]) {
        if i < |a| {
          assert (a + b)[i] == a[i];
        } else {
          assert (a + b)[i] == b[i - |a|];
        }
      }
    }
  }

  /** A record with no instructor, or whose instructor does not attend,
      passes whatever its other fields hold; removing the instructor from
      the attendees repairs a failing record. */
  lemma RemovingInstructorRepairs(s: Session)
    requires s.instructor.Some?
    ensures CheckRecord(s.(attendees := s.attendees - {s.instructor.value})) == Pass
    ensures CheckRecord(s.(instructor := None)) == Pass
  {
  }
}
