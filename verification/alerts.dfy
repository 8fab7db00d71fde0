/** The login reminder: which of the user's appointments start within 15
    minutes of now, or are already under way. */
module Alerts {

  import opened BusinessTime
  import opened Appointments
  import opened Seqs

  const LeadMinutes := 15

  /** What `ZonedDateTime.now()` reads, as far as whole-minute starts and ends
      can tell: the minute the reading lies in, and whether it lies past that
      minute's first instant. Every reading strictly inside a minute compares
      with whole minutes alike. */
  datatype Clock = Clock(minute: Instant, pastMinute: bool)

  /** The reading in half-minutes: a reading strictly inside minute `m`
      compares with every whole minute as `m` and a half does. */
  function Halves(now: Clock): int
  {
    2 * now.minute + (if now.pastMinute then 1 else 0)
  }

  /** `start.isBefore(now + 15min) && start.isAfter(now - 15min)`, or
      `end.isAfter(now) && start.isBefore(now)`, compared in half-minutes.
      The clock reads are one reading. */
  predicate IsExpiring(a: Appointment, now: Clock)
  {
    var t := Halves(now);
    (2 * a.start < t + 2 * LeadMinutes && 2 * a.start > t - 2 * LeadMinutes)
    || (2 * a.end > t && 2 * a.start < t)
  }

  /** `getExpiringAppointments` with the clock reading as a parameter. On a
      whole minute `m` the starts m-14 to m+14 are upcoming; past the first
      instant of `m`, m+15 is too, and an appointment starting at `m` is under way. */
  function ExpiringAppointments(appointments: seq<Appointment>, now: Clock): (r: seq<Appointment>)
    ensures |r| <= |appointments|
    ensures forall a :: a in r <==>
              && a in appointments
              && (|| now.minute - LeadMinutes < a.start < now.minute + LeadMinutes
                  || (now.pastMinute && a.start == now.minute + LeadMinutes)
                  || a.start < now.minute < a.end
                  || (now.pastMinute && a.start == now.minute < a.end))
  {
    Filter(appointments, a => IsExpiring(a, now))
  }

  /** Each appointment is listed as often as it occurs in the input, never more. */
  lemma ExpiringCounts(appointments: seq<Appointment>, now: Clock, a: Appointment)
    ensures multiset(ExpiringAppointments(appointments, now))[a]
            == if IsExpiring(a, now) then multiset(appointments)[a] else 0
  {
    FilterCounts(appointments, x => IsExpiring(x, now), a);
  }

  /** The result keeps input order: the reminders for a concatenation are the
      reminders of each part in turn. */
  lemma ExpiringConcat(s: seq<Appointment>, t: seq<Appointment>, now: Clock)
    ensures ExpiringAppointments(s + t, now)
            == ExpiringAppointments(s, now) + ExpiringAppointments(t, now)
  {
    FilterConcat(s, t, x => IsExpiring(x, now));
  }

  /** The 15-minute bounds are strict: on a whole minute, a start exactly 15
      minutes ahead is left out, and so, at any reading, is a start exactly
      15 minutes back that has ended. */
  lemma ExpiringBoundsStrict(a: Appointment, now: Clock)
    requires || (a.start == now.minute + LeadMinutes && !now.pastMinute)
             || (a.start == now.minute - LeadMinutes && a.end <= now.minute)
    ensures a !in ExpiringAppointments([a], now)
  {
  }

  /** Past the first instant of a minute, a start 15 minutes ahead is listed,
      which on the whole minute it is not: thirty starts are upcoming then,
      against twenty-nine. */
  lemma QuarterAheadListedMidMinute(a: Appointment, minute: Instant)
    requires a.start == minute + LeadMinutes
    ensures ExpiringAppointments([a], Clock(minute, true)) == [a]
    ensures ExpiringAppointments([a], Clock(minute, false)) == []
  {
    FilterSingle(a, x => IsExpiring(x, Clock(minute, true)));
    FilterSingle(a, x => IsExpiring(x, Clock(minute, false)));
  }

  /** An appointment under way is listed however long ago it started. */
  lemma InProgressListed(a: Appointment, now: Clock)
    requires a.start <= now.minute < a.end
    requires now.pastMinute || a.start < now.minute
    ensures ExpiringAppointments([a], now) == [a]
  {
    FilterSingle(a, x => IsExpiring(x, now));
  }

  /** An appointment that has ended and started at least 15 minutes ago is left out. */
  lemma FinishedNotListed(a: Appointment, now: Clock)
    requires a.end <= now.minute && a.start <= now.minute - LeadMinutes
    ensures ExpiringAppointments([a], now) == []
  {
    FilterSingle(a, x => IsExpiring(x, now));
  }
}
