/** The decision logic of saving an appointment from the add and modify
    screens: which errors are flagged for a filled-in form, and what is
    written when none is. */
module Scheduling {

  import opened Wrappers
  import opened BusinessTime
  import opened Appointments
  import opened Overlap
  import opened Seqs

  /** What the screen holds when save is pressed. A combo box or a date or
      hour picker left empty is `None`; dates are day numbers in the caller's
      zone. The minute spinners always hold a value. */
  datatype AppointmentForm = AppointmentForm(
    title: string,
    description: string,
    location: string,
    kind: string,
    userId: Option<int>,
    contactId: Option<int>,
    customerId: Option<int>,
    startDate: Option<int>,
    startHour: Option<Hour>,
    startMinute: Minute,
    endHour: Option<Hour>,
    endMinute: Minute)

  /** The error labels and alerts a save can raise, in the order raised. */
  datatype AppointmentError =
    | EmptyTitle | EmptyDescription | EmptyLocation | EmptyType
    | NoUser | NoContact | NoCustomer
    | SelectionUnparsable
    | MissingDateOrTime
    | StartOutsideBusinessHours
    | EndOutsideBusinessHours
    | EndBeforeStart
    | Overlapping(conflicts: seq<Appointment>)

  /** The statement a successful save issues: an INSERT of a new row, or an
      UPDATE of the row whose id is `whereId`. */
  datatype Write =
    | Insert(appointment: Appointment)
    | Update(appointment: Appointment, whereId: int)

  datatype SaveOutcome = Saved(write: Write) | NotSaved(errors: seq<AppointmentError>)

  /** The add screen rejects an end before the start; the modify screen does not. */
  datatype Screen = Adding | Modifying

  /** The four text fields, each flagged when empty, all checked. */
  function TextErrors(f: AppointmentForm): (errs: seq<AppointmentError>)
    ensures EmptyTitle in errs <==> f.title == []
    ensures EmptyDescription in errs <==> f.description == []
    ensures EmptyLocation in errs <==> f.location == []
    ensures EmptyType in errs <==> f.kind == []
    ensures errs == [] <==> f.title != [] && f.description != [] && f.location != [] && f.kind != []
    ensures |errs| <= 4
  {
    (if f.title == [] then [EmptyTitle] else [])
    + (if f.description == [] then [EmptyDescription] else [])
    + (if f.location == [] then [EmptyLocation] else [])
    + (if f.kind == [] then [EmptyType] else [])
  }

  /** The add screen flags each empty combo box: user, contact, customer. */
  function SelectionErrors(f: AppointmentForm): (errs: seq<AppointmentError>)
    ensures NoUser in errs <==> f.userId.None?
    ensures NoContact in errs <==> f.contactId.None?
    ensures NoCustomer in errs <==> f.customerId.None?
    ensures errs == [] <==> Selected(f)
  {
    (if f.userId.None? then [NoUser] else [])
    + (if f.contactId.None? then [NoContact] else [])
    + (if f.customerId.None? then [NoCustomer] else [])
  }

  predicate Selected(f: AppointmentForm)
  {
    f.userId.Some? && f.contactId.Some? && f.customerId.Some?
  }

  predicate TimesGiven(f: AppointmentForm)
  {
    f.startDate.Some? && f.startHour.Some? && f.endHour.Some?
  }

  /** The start instant: the start date and time on the caller's clock. */
  function FormStart(f: AppointmentForm, userOffset: int): Instant
    requires TimesGiven(f)
  {
    ToInstant(f.startDate.value, f.startHour.value, f.startMinute, userOffset)
  }

  /** The end instant, on the end date rolled over from the start date. */
  function FormEnd(f: AppointmentForm, userOffset: int): Instant
    requires TimesGiven(f)
  {
    ToInstant(EndDate(f.startDate.value, f.startHour.value, f.endHour.value),
              f.endHour.value, f.endMinute, userOffset)
  }

  /** Opening and closing time are both allowed: 08:00 through 22:00 in the
      business zone. */
  predicate BusinessHours(t: Instant)
  {
    OpenMinuteOfDay <= MinuteOfDay(t) <= OpenMinuteOfDay + WindowMinutes
  }

  /** The window, ordering and overlap checks once both instants are known.
      A start outside the window is flagged and checking goes on; an end
      outside the window, or (adding only) an end before the start, is flagged
      and the overlap lookup is skipped. */
  function TimingErrors(screen: Screen, start: Instant, end: Instant, customerId: int,
                        ownId: int, stored: seq<Appointment>): (errs: seq<AppointmentError>)
    ensures StartOutsideBusinessHours in errs <==> !BusinessHours(start)
    ensures EndOutsideBusinessHours in errs <==>
              !(WindowOf(start).start <= end <= WindowOf(start).end)
    ensures EndBeforeStart in errs <==>
              screen == Adding && WindowOf(start).start <= end <= WindowOf(start).end && end < start
    ensures errs == [] <==>
              && BusinessHours(start)
              && WindowOf(start).start <= end <= WindowOf(start).end
              && (screen == Adding ==> start <= end)
              && FindOverlaps(customerId, start, end, ownId, stored) == []
    ensures forall c :: Overlapping(c) in errs ==>
              && c == FindOverlaps(customerId, start, end, ownId, stored) && c != []
              && EndOutsideBusinessHours !in errs && EndBeforeStart !in errs
  {
    InOwnWindowIff(start);
    var w := WindowOf(start);
    var startErrs := if InWindow(start, w) then [] else [StartOutsideBusinessHours];
    if !InWindow(end, w) then startErrs + [EndOutsideBusinessHours]
    else if screen == Adding && end < start then startErrs + [EndBeforeStart]
    else
      var conflicts := FindOverlaps(customerId, start, end, ownId, stored);
      if conflicts == [] then startErrs else startErrs + [Overlapping(conflicts)]
  }

  /** Everything after the text and selection checks, shared by both screens. */
  function CheckTimes(screen: Screen, f: AppointmentForm, id: int, userOffset: int,
                      stored: seq<Appointment>): (r: SaveOutcome)
    requires Selected(f)
    ensures r.Saved? <==>
              && TimesGiven(f)
              && TimingErrors(screen, FormStart(f, userOffset), FormEnd(f, userOffset),
                              f.customerId.value, id, stored) == []
    ensures !TimesGiven(f) ==> r == NotSaved([MissingDateOrTime])
    ensures r.NotSaved? ==> r.errors != []
    ensures r.Saved? ==>
              && r.write.appointment
                 == NewAppointment(id, f.title, f.description, f.location, f.contactId.value,
                                   f.kind, FormStart(f, userOffset), FormEnd(f, userOffset),
                                   f.customerId.value, f.userId.value)
              && (screen == Adding <==> r.write.Insert?)
              && (r.write.Update? ==> r.write.whereId == id)
  {
    if !TimesGiven(f) then NotSaved([MissingDateOrTime])
    else
      var start := FormStart(f, userOffset);
      var end := FormEnd(f, userOffset);
      var errs := TimingErrors(screen, start, end, f.customerId.value, id, stored);
      if errs != [] then NotSaved(errs)
      else
        var a := NewAppointment(id, f.title, f.description, f.location, f.contactId.value,
                                f.kind, start, end, f.customerId.value, f.userId.value);
        if screen == Adding then Saved(Insert(a)) else Saved(Update(a, id))
  }

  /** `saveAppointment` of the add screen, with `id` the id allocated when the
      screen opened. A text or selection error ends the save before the dates
      are looked at. */
  function SaveNewAppointment(f: AppointmentForm, id: int, userOffset: int,
                              stored: seq<Appointment>): (r: SaveOutcome)
    ensures TextErrors(f) + SelectionErrors(f) != [] ==>
              r == NotSaved(TextErrors(f) + SelectionErrors(f))
    ensures r.Saved? <==>
              && f.title != [] && f.description != [] && f.location != [] && f.kind != []
              && Selected(f) && TimesGiven(f)
              && BusinessHours(FormStart(f, userOffset))
              && WindowOf(FormStart(f, userOffset)).start <= FormEnd(f, userOffset)
                   <= WindowOf(FormStart(f, userOffset)).end
              && FormStart(f, userOffset) <= FormEnd(f, userOffset)
              && FindOverlaps(f.customerId.value, FormStart(f, userOffset), FormEnd(f, userOffset),
                              id, stored) == []
    ensures r.Saved? ==>
              && r.write.Insert?
              && var a := r.write.appointment;
              && a.id == id && a.title == f.title && a.description == f.description
              && a.location == f.location && a.kind == f.kind
              && a.contactId == f.contactId.value && a.customerId == f.customerId.value
              && a.userId == f.userId.value
              && a.start == FormStart(f, userOffset) && a.end == FormEnd(f, userOffset)
              && a.start <= a.end
              && forall b :: b in stored ==> !Conflicts(b, a.customerId, a.start, a.end, id)
    ensures r.NotSaved? ==> r.errors != []
  {
    var early := TextErrors(f) + SelectionErrors(f);
    if early != [] then NotSaved(early)
    else CheckTimes(Adding, f, id, userOffset, stored)
  }

  /** The combo boxes on the modify screen are read with `parseInt` of their
      text, so an empty one throws and the save ends with no label of its own. */
  function ParseErrors(f: AppointmentForm): (errs: seq<AppointmentError>)
    ensures errs == [] <==> Selected(f)
    ensures errs != [] ==> errs == [SelectionUnparsable]
  {
    if Selected(f) then [] else [SelectionUnparsable]
  }

  /** `saveAppointment` of the modify screen for the appointment `selected`.
      There is no end-before-start check, and the edited row is excluded from
      the overlap search through its own id. */
  function SaveModifiedAppointment(f: AppointmentForm, selected: Appointment, userOffset: int,
                                   stored: seq<Appointment>): (r: SaveOutcome)
    ensures TextErrors(f) + ParseErrors(f) != [] ==>
              r == NotSaved(TextErrors(f) + ParseErrors(f))
    ensures r.Saved? <==>
              && f.title != [] && f.description != [] && f.location != [] && f.kind != []
              && Selected(f) && TimesGiven(f)
              && BusinessHours(FormStart(f, userOffset))
              && WindowOf(FormStart(f, userOffset)).start <= FormEnd(f, userOffset)
                   <= WindowOf(FormStart(f, userOffset)).end
              && FindOverlaps(f.customerId.value, FormStart(f, userOffset), FormEnd(f, userOffset),
                              selected.id, stored) == []
    ensures r.Saved? ==>
              && r.write.Update?
              && r.write.whereId == selected.id
              && var a := r.write.appointment;
              && a.id == selected.id && a.title == f.title && a.description == f.description
              && a.location == f.location && a.kind == f.kind
              && a.contactId == f.contactId.value && a.customerId == f.customerId.value
              && a.userId == f.userId.value
              && a.start == FormStart(f, userOffset) && a.end == FormEnd(f, userOffset)
              && forall b :: b in stored ==> !Conflicts(b, a.customerId, a.start, a.end, selected.id)
    ensures r.NotSaved? ==> r.errors != []
  {
    var early := TextErrors(f) + ParseErrors(f);
    if early != [] then NotSaved(early)
    else CheckTimes(Modifying, f, selected.id, userOffset, stored)
  }

  /** The one difference between the screens: an end a few minutes before the
      start, in the same hour and inside the window, is rejected when adding
      but saved when modifying. */
  lemma {:induction false} EndBeforeStartOnlyRejectedWhenAdding(
    f: AppointmentForm, selected: Appointment, userOffset: int, stored: seq<Appointment>)
    requires f.title != [] && f.description != [] && f.location != [] && f.kind != []
    requires Selected(f) && TimesGiven(f)
    requires f.endHour.value == f.startHour.value && f.endMinute < f.startMinute
    requires BusinessHours(FormStart(f, userOffset)) && BusinessHours(FormEnd(f, userOffset))
    requires FindOverlaps(f.customerId.value, FormStart(f, userOffset), FormEnd(f, userOffset),
                          selected.id, stored) == []
    ensures SaveNewAppointment(f, selected.id, userOffset, stored) == NotSaved([EndBeforeStart])
    ensures SaveModifiedAppointment(f, selected, userOffset, stored).Saved?
  {
    var start := FormStart(f, userOffset);
    var end := FormEnd(f, userOffset);
    EndBeforeStartIff(f.startDate.value, f.startHour.value, f.startMinute,
                      f.endHour.value, f.endMinute, userOffset);
    assert end < start;
    SameWindow(start, end);
    InOwnWindowIff(start);
  }

  /** Two business-hours instants less than a day apart, the later on the
      earlier's business day, share a window. */
  lemma SameWindow(start: Instant, end: Instant)
    requires end < start
    requires start - end < MinutesPerHour
    requires BusinessHours(start) && BusinessHours(end)
    ensures WindowOf(start).start <= end <= WindowOf(start).end
  {
    InOwnWindowIff(start);
    var ls := BusinessLocal(start);
    var qs := ls / MinutesPerDay;
    var ms := MinuteOfDay(start);
    var d := start - end;
    assert ls == qs * MinutesPerDay + ms;
    DivModDay(BusinessLocal(end), qs, ms - d);
    DivModDay(ls - OpenMinuteOfDay, qs, ms - OpenMinuteOfDay);
    assert SinceOpen(start) == ms - OpenMinuteOfDay;
  }

  /** Apart from that, both screens accept the same forms and build the same
      appointment, given the same own id. */
  lemma {:induction false} ScreensAgreeWhenOrdered(
    f: AppointmentForm, selected: Appointment, userOffset: int, stored: seq<Appointment>)
    requires TimesGiven(f) ==> FormStart(f, userOffset) <= FormEnd(f, userOffset)
    ensures SaveNewAppointment(f, selected.id, userOffset, stored).Saved?
            <==> SaveModifiedAppointment(f, selected, userOffset, stored).Saved?
    ensures SaveNewAppointment(f, selected.id, userOffset, stored).Saved? ==>
              SaveNewAppointment(f, selected.id, userOffset, stored).write.appointment
              == SaveModifiedAppointment(f, selected, userOffset, stored).write.appointment
  {
    var n := SaveNewAppointment(f, selected.id, userOffset, stored);
    var m := SaveModifiedAppointment(f, selected, userOffset, stored);
    if n.Saved? || m.Saved? {
      assert TextErrors(f) == [] && Selected(f) && TimesGiven(f);
      assert n == CheckTimes(Adding, f, selected.id, userOffset, stored);
      assert m == CheckTimes(Modifying, f, selected.id, userOffset, stored);
    }
  }

  /** 2024-06-01 as a day number (days since 1970-01-01). */
  const June1st2024 := 19875
  /** New York standard time, as the caller's offset in minutes. */
  const NewYorkOffset := -300

  function Form(customerId: int, date: int, startHour: Hour, startMinute: Minute,
                endHour: Hour, endMinute: Minute): AppointmentForm
  {
    AppointmentForm("Checkup", "Yearly", "Office", "Planning", Some(1), Some(2), Some(customerId),
                    Some(date), Some(startHour), startMinute, Some(endHour), endMinute)
  }

  /** A New York caller booking 09:00-10:00 on an empty table gets an INSERT of
      exactly those instants. */
  lemma MorningBookingSaved()
    ensures var r := SaveNewAppointment(Form(7, June1st2024, 9, 0, 10, 0), 26, NewYorkOffset, []);
            r.Saved? && r.write.Insert?
            && r.write.appointment.start == June1st2024 * MinutesPerDay + 9 * MinutesPerHour + 300
            && r.write.appointment.end == June1st2024 * MinutesPerDay + 10 * MinutesPerHour + 300
  {
    var f := Form(7, June1st2024, 9, 0, 10, 0);
    InOwnWindowIff(FormStart(f, NewYorkOffset));
  }

  /** The same customer's 10:00-11:00 appointment on 2024-06-01. */
  function Held(): Appointment
  {
    NewAppointment(25, "Review", "Quarterly", "Office", 2, "Planning",
                   June1st2024 * MinutesPerDay + 10 * MinutesPerHour + 300,
                   June1st2024 * MinutesPerDay + 11 * MinutesPerHour + 300, 7, 1)
  }

  /** Any instant of business day `day` from 08:00 on has that day's 08:00 as its
      window start. */
  lemma OpensAt(t: Instant, day: int)
    requires day * MinutesPerDay + OpenMinuteOfDay <= BusinessLocal(t) < (day + 1) * MinutesPerDay
    ensures WindowOf(t).start == day * MinutesPerDay + OpenMinuteOfDay - BusinessOffset
  {
    var s := day * MinutesPerDay + OpenMinuteOfDay - BusinessOffset;
    DivModDay(BusinessLocal(s), day, OpenMinuteOfDay);
    WindowStartUnique(t, s);
  }

  /** Booking 10:30-11:30 next to it is refused, with it listed. */
  lemma OverlapFromAfterIsReported()
    ensures SaveNewAppointment(Form(7, June1st2024, 10, 30, 11, 30), 26, NewYorkOffset, [Held()])
            == NotSaved([Overlapping([Held()])])
  {
    var f := Form(7, June1st2024, 10, 30, 11, 30);
    var start := FormStart(f, NewYorkOffset);
    var end := FormEnd(f, NewYorkOffset);
    LateMorningInHours();
    HeldConflictsWithLateMorning();
    assert TimingErrors(Adding, start, end, 7, 26, [Held()]) == [Overlapping([Held()])];
    assert CheckTimes(Adding, f, 26, NewYorkOffset, [Held()]) == NotSaved([Overlapping([Held()])]);
  }

  /** 10:30-11:30 on 2024-06-01 lies inside that day's business hours. */
  lemma LateMorningInHours()
    ensures var f := Form(7, June1st2024, 10, 30, 11, 30);
            var start := FormStart(f, NewYorkOffset);
            var end := FormEnd(f, NewYorkOffset);
            && start == June1st2024 * MinutesPerDay + 630 + 300
            && end == June1st2024 * MinutesPerDay + 690 + 300
            && BusinessHours(start)
            && WindowOf(start).start <= end <= WindowOf(start).end
  {
    var f := Form(7, June1st2024, 10, 30, 11, 30);
    var start := FormStart(f, NewYorkOffset);
    assert start == June1st2024 * MinutesPerDay + 630 + 300;
    DivModDay(BusinessLocal(start), June1st2024, 630);
    OpensAt(start, June1st2024);
    InOwnWindowIff(start);
  }

  lemma HeldConflictsWithLateMorning()
    ensures var start := June1st2024 * MinutesPerDay + 630 + 300;
            var end := June1st2024 * MinutesPerDay + 690 + 300;
            FindOverlaps(7, start, end, 26, [Held()]) == [Held()]
  {
    var start := June1st2024 * MinutesPerDay + 630 + 300;
    var end := June1st2024 * MinutesPerDay + 690 + 300;
    DivModDay(BusinessLocal(start), June1st2024, 630);
    DivModDay(BusinessLocal(Held().start), June1st2024, 600);
    assert Conflicts(Held(), 7, start, end, 26);
    FilterSingle(Held(), a => Conflicts(a, 7, start, end, 26));
  }

  /** Booking 09:30-10:30 overlaps it just as much but is saved: `isBetween`
      reports a candidate starting earlier only when it also ends no earlier. */
  lemma OverlapFromBeforeIsMissed()
    ensures SaveNewAppointment(Form(7, June1st2024, 9, 30, 10, 30), 26, NewYorkOffset, [Held()]).Saved?
  {
    var f := Form(7, June1st2024, 9, 30, 10, 30);
    var start := FormStart(f, NewYorkOffset);
    var end := FormEnd(f, NewYorkOffset);
    assert start == June1st2024 * MinutesPerDay + 570 + 300;
    OpensAt(start, June1st2024);
    assert Held().start < end < Held().end;
    DivModDay(BusinessLocal(start), June1st2024, 570);
    InOwnWindowIff(start);
    assert !Conflicts(Held(), 7, start, end, 26);
    FilterSingle(Held(), a => Conflicts(a, 7, start, end, 26));
    assert FindOverlaps(7, start, end, 26, [Held()]) == [];
    assert TimingErrors(Adding, start, end, 7, 26, [Held()]) == [];
    assert CheckTimes(Adding, f, 26, NewYorkOffset, [Held()]).Saved?;
  }

  /** A caller nine hours ahead of UTC picks 23:00 to 01:00: the end date rolls
      to the next day, and the appointment is 09:00-11:00 in New York. */
  lemma LateEveningAbroadRollsOver()
    ensures var f := Form(7, June1st2024, 23, 0, 1, 0);
            var r := SaveNewAppointment(f, 26, 540, []);
            r.Saved?
            && r.write.appointment.end - r.write.appointment.start == 2 * MinutesPerHour
            && HourOf(r.write.appointment.start) == 9
  {
    var f := Form(7, June1st2024, 23, 0, 1, 0);
    InOwnWindowIff(FormStart(f, 540));
  }

  /** 2023-06-02 and 2024-06-01 are both day 153 of their year, so the overlap
      search treats them as the same day. */
  lemma DayOfYearIgnoresYear()
    ensures DayOfYear(19510 * MinutesPerDay + 12 * MinutesPerHour)
            == DayOfYear(June1st2024 * MinutesPerDay + 12 * MinutesPerHour) == 153
  {
    DivModDay(19510 * MinutesPerDay + 12 * MinutesPerHour + BusinessOffset, 19510, 420);
    DivModDay(June1st2024 * MinutesPerDay + 12 * MinutesPerHour + BusinessOffset, June1st2024, 420);
    assert (19510 + 719468) / 146097 == 5;
    assert 738978 - 5 * 146097 == 8493;
    assert (8493 - 8493 / 1460 + 8493 / 36524 - 8493 / 146096) / 365 == 23;
    assert 8493 - (365 * 23 + 23 / 4 - 23 / 100) == 93;
    assert CivilDayOfYear(19510) == 153;
    assert (June1st2024 + 719468) / 146097 == 5;
    assert 739343 - 5 * 146097 == 8858;
    assert (8858 - 8858 / 1460 + 8858 / 36524 - 8858 / 146096) / 365 == 24;
    assert 8858 - (365 * 24 + 24 / 4 - 24 / 100) == 92;
    assert CivilDayOfYear(June1st2024) == 153;
  }
}
