/** Time arithmetic of the scheduling screens. An instant is a whole number of
    minutes since 1970-01-01T00:00Z. The business zone (America/New_York) is a
    fixed offset from UTC; the caller's zone offset is a parameter, read once
    per booking action the way the controllers read it at `Instant.now()`. */
module BusinessTime {

  /** Minutes since 1970-01-01T00:00Z. */
  type Instant = int

  /** A spinner hour and a spinner minute (the spinners range over 0..23 and 0..59). */
  type Hour = h: int | 0 <= h < 24
  type Minute = m: int | 0 <= m < 60

  const MinutesPerHour := 60
  const MinutesPerDay := 1440

  /** UTC-5, the standard offset of America/New_York, in minutes. */
  const BusinessOffset := -300

  /** The business day opens at 08:00 and lasts 14 hours. */
  const OpenHour: Hour := 8
  const OpenMinuteOfDay := OpenHour * MinutesPerHour
  const WindowMinutes := 14 * MinutesPerHour

  /** Wall-clock minutes in the business zone. */
  function BusinessLocal(t: Instant): int
  {
    t + BusinessOffset
  }

  /** Minutes since business-zone midnight. */
  function MinuteOfDay(t: Instant): (m: int)
    ensures 0 <= m < MinutesPerDay
  {
    BusinessLocal(t) % MinutesPerDay
  }

  /** `getHour()` of the instant seen in the business zone. */
  function HourOf(t: Instant): Hour
  {
    MinuteOfDay(t) / MinutesPerHour
  }

  /** `getMinute()` of the instant seen in the business zone. */
  function MinuteOf(t: Instant): Minute
  {
    MinuteOfDay(t) % MinutesPerHour
  }

  /** Days since 1970-01-01 of the business-zone calendar day. */
  function BusinessDay(t: Instant): int
  {
    BusinessLocal(t) / MinutesPerDay
  }

  /** Minutes elapsed since the most recent business-zone 08:00. */
  function SinceOpen(t: Instant): (d: int)
    ensures 0 <= d < MinutesPerDay
  {
    (BusinessLocal(t) - OpenMinuteOfDay) % MinutesPerDay
  }

  /** Moving an instant by `d` minutes moves the time since opening by `d`, modulo a day. */
  lemma SinceOpenShift(t: Instant, d: int)
    ensures SinceOpen(t + d) == (SinceOpen(t) + d) % MinutesPerDay
  {
    var a := BusinessLocal(t) - OpenMinuteOfDay;
    var q := a / MinutesPerDay;
    assert a == q * MinutesPerDay + SinceOpen(t);
    assert a + d == q * MinutesPerDay + (SinceOpen(t) + d);
  }

  /** The wall clock reads a whole hour exactly when the time since opening is. */
  lemma MinuteOfSinceOpen(t: Instant)
    ensures MinuteOf(t) == SinceOpen(t) % MinutesPerHour
    ensures HourOf(t) == (SinceOpen(t) / MinutesPerHour + OpenHour) % 24
  {
    var l := BusinessLocal(t);
    var q := (l - OpenMinuteOfDay) / MinutesPerDay;
    assert l - OpenMinuteOfDay == q * MinutesPerDay + SinceOpen(t);
    var q2 := l / MinutesPerDay;
    assert l == q2 * MinutesPerDay + MinuteOfDay(t);
    assert MinuteOfDay(t) == (SinceOpen(t) + OpenMinuteOfDay) % MinutesPerDay;
  }

  /** The business-hours window derived from a candidate start. */
  datatype BusinessWindow = BusinessWindow(start: Instant, end: Instant)

  /** The window whose start is the latest business-zone 08:00 at or before `t`
      and whose end is 14 hours later. */
  function WindowOf(t: Instant): (w: BusinessWindow)
    ensures HourOf(w.start) == OpenHour && MinuteOf(w.start) == 0
    ensures w.start <= t < w.start + MinutesPerDay
    ensures w.end == w.start + WindowMinutes
  {
    var s := t - SinceOpen(t);
    SinceOpenShift(t, -SinceOpen(t));
    MinuteOfSinceOpen(s);
    BusinessWindow(s, s + WindowMinutes)
  }

  /** Any business-zone 08:00 within the day before `t` is the window start:
      the anchor is unique. */
  lemma WindowStartUnique(t: Instant, s: Instant)
    requires HourOf(s) == OpenHour && MinuteOf(s) == 0
    requires s <= t < s + MinutesPerDay
    ensures s == WindowOf(t).start
  {
    MinuteOfSinceOpen(s);
    assert SinceOpen(s) == 0;
    SinceOpenShift(s, t - s);
  }

  /** The business-zone hour is 8 exactly in the first hour after opening. */
  lemma OpenHourIff(s: Instant)
    ensures HourOf(s) == OpenHour <==> SinceOpen(s) < MinutesPerHour
  {
    MinuteOfSinceOpen(s);
  }

  /** Outside the opening hour, stepping back an hour keeps the minute and
      does not cross the opening. */
  lemma HourStepBack(s: Instant)
    requires HourOf(s) != OpenHour
    ensures SinceOpen(s - MinutesPerHour) == SinceOpen(s) - MinutesPerHour
  {
    OpenHourIff(s);
    SinceOpenShift(s, -MinutesPerHour);
  }

  /** Inside the opening hour but past its first minute, stepping back a
      minute stays inside the opening hour. */
  lemma MinuteStepBack(s: Instant)
    requires HourOf(s) == OpenHour && MinuteOf(s) != 0
    ensures SinceOpen(s - 1) == SinceOpen(s) - 1
    ensures HourOf(s - 1) == OpenHour
  {
    OpenHourIff(s);
    MinuteOfSinceOpen(s);
    SinceOpenShift(s, -1);
    OpenHourIff(s - 1);
  }

  /** `setBusinessTimes`: steps back one hour at a time until the business-zone
      hour is 8, then one minute at a time until the minute is 0, and ends the
      window 14 hours later. */
  method SetBusinessTimes(t: Instant) returns (w: BusinessWindow)
    ensures HourOf(w.start) == OpenHour && MinuteOf(w.start) == 0
    ensures w.start <= t < w.start + MinutesPerDay
    ensures w.end == w.start + WindowMinutes
    ensures w == WindowOf(t)
  {
    var start := t;
    while HourOf(start) != OpenHour
      invariant start <= t
      invariant SinceOpen(start) == SinceOpen(t) - (t - start)
      decreases SinceOpen(start)
    {
      HourStepBack(start);
      start := start - MinutesPerHour;
    }
    while MinuteOf(start) != 0
      invariant start <= t && HourOf(start) == OpenHour
      invariant SinceOpen(start) == SinceOpen(t) - (t - start)
      decreases SinceOpen(start)
    {
      MinuteStepBack(start);
      start := start - 1;
    }
    OpenHourIff(start);
    MinuteOfSinceOpen(start);
    assert SinceOpen(start) == 0;
    w := BusinessWindow(start, start + WindowMinutes);
  }

  /** `!(t.isBefore(w.start) || t.isAfter(w.end))`: inside the window, both ends included. */
  predicate InWindow(t: Instant, w: BusinessWindow)
  {
    !(t < w.start || t > w.end)
  }

  /** Checked against its own window, an instant passes exactly when its
      business-zone wall clock reads 08:00 through 22:00 inclusive. */
  lemma InOwnWindowIff(t: Instant)
    ensures InWindow(t, WindowOf(t)) <==>
            OpenMinuteOfDay <= MinuteOfDay(t) <= OpenMinuteOfDay + WindowMinutes
  {
    var l := BusinessLocal(t);
    var q := (l - OpenMinuteOfDay) / MinutesPerDay;
    assert l - OpenMinuteOfDay == q * MinutesPerDay + SinceOpen(t);
    var q2 := l / MinutesPerDay;
    assert l == q2 * MinutesPerDay + MinuteOfDay(t);
    if SinceOpen(t) <= WindowMinutes {
      assert q2 == q;
    } else {
      assert MinuteOfDay(t) < OpenMinuteOfDay || MinuteOfDay(t) > OpenMinuteOfDay + WindowMinutes;
    }
  }

  /** The end date picked from the start date: the same day when the end hour is
      not earlier than the start hour, the next day otherwise. Dates are day
      numbers in the caller's zone. */
  function EndDate(startDate: int, startHour: Hour, endHour: Hour): (d: int)
    ensures d == startDate || d == startDate + 1
    ensures d == startDate <==> endHour >= startHour
  {
    if endHour >= startHour then startDate else startDate + 1
  }

  /** `OffsetDateTime.of(date, time, offset).toInstant()`, with the caller's zone
      offset in minutes. */
  function ToInstant(date: int, hour: Hour, minute: Minute, userOffset: int): Instant
  {
    date * MinutesPerDay + hour * MinutesPerHour + minute - userOffset
  }

  /** Reading an instant back on the caller's wall clock recovers the date,
      hour and minute it was built from. */
  lemma ToInstantRoundTrip(date: int, hour: Hour, minute: Minute, userOffset: int)
    ensures var l := ToInstant(date, hour, minute, userOffset) + userOffset;
            l / MinutesPerDay == date &&
            (l % MinutesPerDay) / MinutesPerHour == hour &&
            l % MinutesPerHour == minute
  {
    var l := ToInstant(date, hour, minute, userOffset) + userOffset;
    var x := hour * MinutesPerHour + minute;
    assert 0 <= x < MinutesPerDay;
    assert l == date * MinutesPerDay + x;
    DivModDay(l, date, x);
    DivModHour(x, hour, minute);
    DivModHour(l, date * 24 + hour, minute);
  }

  lemma DivModDay(a: int, q: int, r: int)
    requires 0 <= r < MinutesPerDay && a == q * MinutesPerDay + r
    ensures a / MinutesPerDay == q && a % MinutesPerDay == r
  {
  }

  lemma DivModHour(a: int, q: int, r: int)
    requires 0 <= r < MinutesPerHour && a == q * MinutesPerHour + r
    ensures a / MinutesPerHour == q && a % MinutesPerHour == r
  {
  }

  /** With the end date rolled over as the controllers do, the end instant falls
      before the start instant only when both times share an hour and the end
      minute is the earlier one. */
  lemma EndBeforeStartIff(date: int, startHour: Hour, startMinute: Minute,
                          endHour: Hour, endMinute: Minute, userOffset: int)
    ensures ToInstant(EndDate(date, startHour, endHour), endHour, endMinute, userOffset)
              < ToInstant(date, startHour, startMinute, userOffset)
            <==> endHour == startHour && endMinute < startMinute
  {
  }

  /** `getDayOfYear()` in the proleptic Gregorian calendar of the day with the
      given number (days since 1970-01-01). */
  function CivilDayOfYear(days: int): int
  {
    var z := days + 719468;
    var era := z / 146097;
    var doe := z - era * 146097;
    var yoe := (doe - doe / 1460 + doe / 36524 - doe / 146096) / 365;
    var marchDay := doe - (365 * yoe + yoe / 4 - yoe / 100);
    var leap := yoe % 4 == 0 && (yoe % 100 != 0 || yoe == 0);
    if marchDay >= 306 then marchDay - 305
    else marchDay + 60 + (if leap then 1 else 0)
  }

  /** `getDayOfYear()` of the instant seen in the business zone. */
  function DayOfYear(t: Instant): int
  {
    CivilDayOfYear(BusinessDay(t))
  }
}
