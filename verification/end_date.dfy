/** The two-way end-date field of a Session: the forward rule derives
    `end_date` from `start_date` and `duration`, the inverse rule derives
    `duration` back when `end_date` is edited. */
module EndDate {
  import opened Options
  import opened Calendar
  import opened Sessions

  /** The forward rule on the two inputs. With no start date or a zero
      (unset) duration the end date is the start date itself; otherwise the
      start's midnight is moved on by `duration` days less one second and
      truncated to its date, so that a run of `duration` days ends on its
      last day rather than the day after. */
  function EndDateOf(start: Option<Day>, duration: int): (r: Option<Day>)
    ensures start.None? ==> r.None?
    ensures start.Some? && duration == 0 ==> r == start
    ensures start.Some? && duration != 0 ==> r == Some(start.value + duration - 1)
  {
    if start.None? || duration == 0 then start
    else
      var t := Midnight(start.value) + duration * SecondsPerDay - 1;
      Some(DateOf(t))
  }

  /** The inverse rule on two present dates: the whole days from start to
      end, plus one, so that a Monday-to-Friday span reads back as 5 days. */
  function DurationOf(start: Day, end: Day): (d: int)
    ensures d == end - start + 1
    ensures end < start <==> d <= 0
  {
    WholeDays(Midnight(end) - Midnight(start)) + 1
  }

  /** Recomputing the stored `end_date` of one record; no other field changes. */
  function ComputeEndDate(s: Session): (r: Session)
    ensures r == s.(end_date := r.end_date)
    ensures s.start_date.None? || s.duration == 0 ==> r.end_date == s.start_date
    ensures s.start_date.Some? && s.duration != 0 ==>
              r.end_date == Some(s.start_date.value + s.duration - 1)
  {
    s.(end_date := EndDateOf(s.start_date, s.duration))
  }

  /** Editing `end_date` of one record: when both dates are present the
      duration is rederived from them; otherwise the record is left as it is.
      Only `duration` ever changes. */
  function SetEndDate(s: Session): (r: Session)
    ensures r == s.(duration := r.duration)
    ensures s.start_date.None? || s.end_date.None? ==> r == s
    ensures s.start_date.Some? && s.end_date.Some? ==>
              r.duration == s.end_date.value - s.start_date.value + 1
  {
    if s.start_date.None? || s.end_date.None? then s
    else s.(duration := DurationOf(s.start_date.value, s.end_date.value))
  }

  /** A record whose stored end date agrees with its start date and duration. */
  predicate EndDateConsistent(s: Session)
  {
    s.end_date == EndDateOf(s.start_date, s.duration)
  }

  /** Round trip on the inputs: for every nonzero whole-day duration, the
      end date the forward rule derives reads back as that same duration. */
  lemma DurationRoundTrip(start: Day, duration: int)
    requires duration != 0
    ensures EndDateOf(Some(start), duration).Some?
    ensures DurationOf(start, EndDateOf(Some(start), duration).value) == duration
  {
  }

  /** Round trip on a record: once the end date is recomputed, applying the
      inverse rule leaves the record unchanged, duration included, as long as
      the start date is set and the duration is nonzero. */
  lemma ComputeThenSetEndDate(s: Session)
    requires s.start_date.Some? && s.duration != 0
    ensures EndDateConsistent(ComputeEndDate(s))
    ensures SetEndDate(ComputeEndDate(s)) == ComputeEndDate(s)
  {
  }

  /** The zero-duration fallback breaks the round trip: an unset duration
      yields an end date equal to the start date, which reads back as one day. */
  lemma ZeroDurationReadsBackAsOne(s: Session)
    requires s.start_date.Some? && s.duration == 0
    ensures ComputeEndDate(s).end_date == s.start_date
    ensures SetEndDate(ComputeEndDate(s)).duration == 1
    ensures SetEndDate(ComputeEndDate(s)) != ComputeEndDate(s)
  {
  }

  /** The other direction: editing the end date and recomputing it gives
      back the edited date, except when the end date is the day before the
      start date; then the rederived duration is 0, which the forward rule
      reads as unset and answers with the start date. */
  lemma SetThenComputeEndDate(s: Session)
    requires s.start_date.Some? && s.end_date.Some?
    ensures s.end_date.value != s.start_date.value - 1 ==>
              ComputeEndDate(SetEndDate(s)).end_date == s.end_date
    ensures s.end_date.value == s.start_date.value - 1 ==>
              SetEndDate(s).duration == 0 &&
              ComputeEndDate(SetEndDate(s)).end_date == s.start_date
  {
  }

  /** Recomputing twice is recomputing once. */
  lemma ComputeEndDateIdempotent(s: Session)
    ensures ComputeEndDate(ComputeEndDate(s)) == ComputeEndDate(s)
  {
  }

  /** Day 738886 (1 January 2024) is a Monday; five days from it end on
      Friday 5 January, and that end date reads back as five days. */
  lemma MondayPlusFiveEndsFriday()
    ensures Weekday(738886) == 0
    ensures EndDateOf(Some(738886), 5) == Some(738890)
    ensures Weekday(738890) == 4
    ensures DurationOf(738886, 738890) == 5
  {
  }

  /** The forward rule over a batch of records: each record's end date is
      recomputed from that record's own fields alone. */
  method ComputeEndDates(batch: seq<Session>) returns (out: seq<Session>)
    ensures |out| == |batch|
    ensures forall i :: 0 <= i < |batch| ==>
              out[i] == batch[i].(end_date := out[i].end_date) && EndDateConsistent(out[i])
  {
    out := [];
    var k := 0;
    while k < |batch|
      invariant 0 <= k <= |batch|
      invariant |out| == k
      invariant forall i :: 0 <= i < k ==>
                  out[i] == batch[i].(end_date := out[i].end_date) && EndDateConsistent(out[i])
    {
      out := out + [ComputeEndDate(batch[k])];
      k := k + 1;
    }
  }

  /** The inverse rule over a batch: every record with both dates gets its
      duration rederived; every other record is passed through unchanged. */
  method SetEndDates(batch: seq<Session>) returns (out: seq<Session>)
    ensures |out| == |batch|
    ensures forall i :: 0 <= i < |batch| ==> out[i] == batch[i].(duration := out[i].duration)
    ensures forall i :: 0 <= i < |batch| && (batch[i].start_date.None? || batch[i].end_date.None?) ==>
              out[i] == batch[i]
    ensures forall i :: 0 <= i < |batch| && batch[i].start_date.Some? && batch[i].end_date.Some? ==>
              out[i].duration == batch[i].end_date.value - batch[i].start_date.value + 1
  {
    out := [];
    var k := 0;
    while k < |batch|
      invariant 0 <= k <= |batch|
      invariant |out| == k
      invariant forall i :: 0 <= i < k ==> out[i] == SetEndDate(batch[i])
    {
      out := out + [SetEndDate(batch[k])];
      k := k + 1;
    }
  }
}
