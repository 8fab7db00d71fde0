/** The overlap detector: which of a customer's stored appointments conflict
    with a candidate start and end. */
module Overlap {

  import opened BusinessTime
  import opened Appointments
  import opened Seqs

  /** `isBetween(existingStart, existingEnd, newStart, newEnd)` as written: a
      candidate starting at or after the existing start conflicts when it starts
      or ends no later than the existing end; one starting earlier conflicts
      only when it ends at or after the existing end. */
  predicate IsBetween(existingStart: Instant, existingEnd: Instant, newStart: Instant, newEnd: Instant)
  {
    if newStart > existingStart || newStart == existingStart then
      (newStart < existingEnd || newStart == existingEnd) || (newEnd < existingEnd || newEnd == existingEnd)
    else
      existingEnd < newEnd || newEnd == existingEnd
  }

  /** `t` lies in the closed interval from `start` to `end`. */
  predicate Within(t: Instant, start: Instant, end: Instant)
  {
    start <= t <= end
  }

  /** Two closed intervals share at least one instant. */
  ghost predicate ShareInstant(aStart: Instant, aEnd: Instant, bStart: Instant, bEnd: Instant)
  {
    exists t: Instant :: Within(t, aStart, aEnd) && Within(t, bStart, bEnd)
  }

  /** The closed-interval intersection test. */
  predicate ClosedOverlap(aStart: Instant, aEnd: Instant, bStart: Instant, bEnd: Instant)
  {
    bStart <= aEnd && aStart <= bEnd
  }

  /** The intersection test is exact for well-formed intervals. */
  lemma ClosedOverlapIff(aStart: Instant, aEnd: Instant, bStart: Instant, bEnd: Instant)
    requires aStart <= aEnd && bStart <= bEnd
    ensures ClosedOverlap(aStart, aEnd, bStart, bEnd) <==> ShareInstant(aStart, aEnd, bStart, bEnd)
  {
    if ClosedOverlap(aStart, aEnd, bStart, bEnd) {
      var t := if aStart <= bStart then bStart else aStart;
      assert Within(t, aStart, aEnd) && Within(t, bStart, bEnd);
    }
  }

  /** Starting at or after the existing start, the test is: start no later
      than the existing end, or end no later than the existing end. */
  lemma IsBetweenFromLaterStart(es: Instant, ee: Instant, ns: Instant, ne: Instant)
    requires ns >= es
    ensures IsBetween(es, ee, ns, ne) <==> ns <= ee || ne <= ee
  {
  }

  /** Starting earlier, the test is only: end at or after the existing end. */
  lemma IsBetweenFromEarlierStart(es: Instant, ee: Instant, ns: Instant, ne: Instant)
    requires ns < es
    ensures IsBetween(es, ee, ns, ne) <==> ne >= ee
  {
  }

  /** Both boundaries are closed: starting exactly at the existing start, or
      exactly at the existing end, conflicts. */
  lemma IsBetweenClosedBoundaries(es: Instant, ee: Instant, ne: Instant)
    requires es <= ee
    ensures IsBetween(es, ee, es, ne)
    ensures IsBetween(es, ee, ee, ne)
  {
  }

  /** For a well-formed candidate starting at or after the existing start, the
      test is the closed-interval intersection test. */
  lemma IsBetweenMatchesIntersectionFromLaterStart(es: Instant, ee: Instant, ns: Instant, ne: Instant)
    requires es <= ns <= ne
    ensures IsBetween(es, ee, ns, ne) <==> ClosedOverlap(es, ee, ns, ne)
  {
  }

  /** A candidate that starts before an existing appointment and ends strictly
      inside it is not reported, although the two share instants. */
  lemma IsBetweenMissesOverlapFromBefore(es: Instant, ee: Instant, ns: Instant, ne: Instant)
    requires ns < es <= ne < ee
    ensures !IsBetween(es, ee, ns, ne)
    ensures ShareInstant(es, ee, ns, ne)
  {
    assert Within(es, es, ee) && Within(es, ns, ne);
  }

  /** The filter condition of `isAppointmentOverlapping`: the same customer, not
      the appointment being edited, the same business-zone day of the year, and
      `isBetween`. */
  predicate Conflicts(a: Appointment, customerId: int, newStart: Instant, newEnd: Instant, ownId: int)
  {
    && a.customerId == customerId
    && a.id != ownId
    && DayOfYear(a.start) == DayOfYear(newStart)
    && IsBetween(a.start, a.end, newStart, newEnd)
  }

  /** `isAppointmentOverlapping`, with the stored appointments passed in instead
      of fetched: the stored rows of the customer that conflict, in stored order. */
  function FindOverlaps(customerId: int, newStart: Instant, newEnd: Instant, ownId: int,
                        stored: seq<Appointment>): (r: seq<Appointment>)
    ensures forall a :: a in r ==> a in stored && a.customerId == customerId
    ensures forall a :: a in r ==> a.id != ownId
    ensures forall a :: a in r ==> DayOfYear(a.start) == DayOfYear(newStart)
    ensures forall a :: a in r ==> IsBetween(a.start, a.end, newStart, newEnd)
    ensures forall a :: a in stored && Conflicts(a, customerId, newStart, newEnd, ownId) ==> a in r
  {
    Filter(stored, a => Conflicts(a, customerId, newStart, newEnd, ownId))
  }

  /** The loop of `isAppointmentOverlapping`, adding each conflicting row to a new list. */
  method IsAppointmentOverlapping(customerId: int, newStart: Instant, newEnd: Instant, ownId: int,
                                  stored: seq<Appointment>) returns (overlapping: seq<Appointment>)
    ensures overlapping == FindOverlaps(customerId, newStart, newEnd, ownId, stored)
    ensures |stored| == 0 ==> overlapping == []
  {
    overlapping := [];
    var i := 0;
    while i < |stored|
      invariant 0 <= i <= |stored|
      invariant overlapping == FindOverlaps(customerId, newStart, newEnd, ownId, stored[..i])
    {
      var a := stored[i];
      assert stored[..i + 1][..i] == stored[..i];
      if Conflicts(a, customerId, newStart, newEnd, ownId) {
        overlapping := overlapping + [a];
      }
      i := i + 1;
    }
    assert stored[..i] == stored;
  }

  /** Splitting the stored rows splits the result the same way: the conflicts
      keep their stored order. */
  lemma FindOverlapsConcat(customerId: int, newStart: Instant, newEnd: Instant, ownId: int,
                           s: seq<Appointment>, t: seq<Appointment>)
    ensures FindOverlaps(customerId, newStart, newEnd, ownId, s + t)
            == FindOverlaps(customerId, newStart, newEnd, ownId, s)
               + FindOverlaps(customerId, newStart, newEnd, ownId, t)
  {
    FilterConcat(s, t, a => Conflicts(a, customerId, newStart, newEnd, ownId));
  }

  /** Editing an appointment never reports the appointment itself, even when its
      stored interval is the one being checked. */
  lemma EditNeverConflictsWithItself(self: Appointment, newStart: Instant, newEnd: Instant,
                                     stored: seq<Appointment>)
    ensures self !in FindOverlaps(self.customerId, newStart, newEnd, self.id, stored)
  {
  }

  /** Rows on another business-zone day of the year are never reported, even
      when their instants overlap the candidate's. */
  lemma OtherDayNeverReported(a: Appointment, customerId: int, newStart: Instant, newEnd: Instant,
                              ownId: int, stored: seq<Appointment>)
    requires DayOfYear(a.start) != DayOfYear(newStart)
    ensures a !in FindOverlaps(customerId, newStart, newEnd, ownId, stored)
  {
  }
}
