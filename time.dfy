/** `java.time.LocalDateTime` as far as the core uses it: comparison, adding one hour,
    subtracting one month, and the first and last instants of a month. The clock itself
    (`LocalDateTime.now()`) is never read by the model; every operation takes `now`. */
module Time {

  const NanosPerSecond: int := 1_000_000_000
  const NanosPerHour: int := 3600 * NanosPerSecond
  const NanosPerDay: int := 24 * NanosPerHour

  predicate IsLeapYear(year: int) {
    year % 4 == 0 && (year % 100 != 0 || year % 400 == 0)
  }

  /** The length of a month in the proleptic Gregorian calendar. */
  function DaysInMonth(year: int, month: int): (r: int)
    requires 1 <= month <= 12
    ensures 28 <= r <= 31
    ensures r == 29 <==> month == 2 && IsLeapYear(year)
  {
    if month == 2 then (if IsLeapYear(year) then 29 else 28)
    else if month == 4 || month == 6 || month == 9 || month == 11 then 30
    else 31
  }

  /** A date and a time of day, the time counted in nanoseconds since midnight. */
  datatype Moment = Moment(year: int, month: int, day: int, nanoOfDay: int)

  predicate IsValid(m: Moment) {
    && 1 <= m.month <= 12
    && 1 <= m.day <= DaysInMonth(m.year, m.month)
    && 0 <= m.nanoOfDay < NanosPerDay
  }

  /** The values a `LocalDateTime` can hold. */
  type LocalDateTime = m: Moment | IsValid(m) witness Moment(2000, 1, 1, 0)

  /** `a.isBefore(b)`: chronological order, i.e. lexicographic on the fields. */
  predicate IsBefore(a: Moment, b: Moment) {
    || a.year < b.year
    || (a.year == b.year && a.month < b.month)
    || (a.year == b.year && a.month == b.month && a.day < b.day)
    || (a.year == b.year && a.month == b.month && a.day == b.day && a.nanoOfDay < b.nanoOfDay)
  }

  /** `a.isAfter(b)`. */
  predicate IsAfter(a: Moment, b: Moment) {
    IsBefore(b, a)
  }

  /** The order is strict and total, as `compareTo` on `LocalDateTime` is. */
  lemma OrderTrichotomy(a: Moment, b: Moment)
    ensures !(IsBefore(a, b) && IsBefore(b, a))
    ensures IsBefore(a, b) || IsBefore(b, a) || a == b
  {
  }

  lemma OrderTransitive(a: Moment, b: Moment, c: Moment)
    requires IsBefore(a, b) && IsBefore(b, c)
    ensures IsBefore(a, c)
  {
  }

  /** SQL `x BETWEEN lo AND hi`, inclusive at both ends. */
  predicate Between(x: Moment, lo: Moment, hi: Moment) {
    !IsBefore(x, lo) && !IsBefore(hi, x)
  }

  /** The day after a valid date, carrying into the next month and year. */
  function NextDay(t: LocalDateTime): (r: LocalDateTime)
    ensures r.nanoOfDay == t.nanoOfDay
    ensures IsBefore(t, r)
  {
    if t.day < DaysInMonth(t.year, t.month) then t.(day := t.day + 1)
    else if t.month < 12 then Moment(t.year, t.month + 1, 1, t.nanoOfDay)
    else Moment(t.year + 1, 1, 1, t.nanoOfDay)
  }

  /** The day before a valid date, borrowing from the previous month and year. */
  function PreviousDay(t: LocalDateTime): (r: LocalDateTime)
    ensures r.nanoOfDay == t.nanoOfDay
    ensures IsBefore(r, t)
  {
    if t.day > 1 then t.(day := t.day - 1)
    else if t.month > 1 then Moment(t.year, t.month - 1, DaysInMonth(t.year, t.month - 1), t.nanoOfDay)
    else Moment(t.year - 1, 12, 31, t.nanoOfDay)
  }

  /** Stepping one day forward and one day back returns to the same date. */
  lemma NextDayRoundTrip(t: LocalDateTime)
    ensures PreviousDay(NextDay(t)) == t
  {
  }

  /** `t.plusHours(1)`. */
  function PlusOneHour(t: LocalDateTime): (r: LocalDateTime)
    ensures IsBefore(t, r)
    ensures r.nanoOfDay == (t.nanoOfDay + NanosPerHour) % NanosPerDay
  {
    if t.nanoOfDay + NanosPerHour < NanosPerDay then t.(nanoOfDay := t.nanoOfDay + NanosPerHour)
    else NextDay(t).(nanoOfDay := t.nanoOfDay + NanosPerHour - NanosPerDay)
  }

  /** `t.minusHours(1)`; used only to state that adding an hour can be undone. */
  function MinusOneHour(t: LocalDateTime): (r: LocalDateTime)
    ensures IsBefore(r, t)
  {
    if t.nanoOfDay >= NanosPerHour then t.(nanoOfDay := t.nanoOfDay - NanosPerHour)
    else PreviousDay(t).(nanoOfDay := t.nanoOfDay - NanosPerHour + NanosPerDay)
  }

  /** Adding one hour is exactly undone by subtracting one, across midnight included. */
  lemma PlusOneHourRoundTrip(t: LocalDateTime)
    ensures MinusOneHour(PlusOneHour(t)) == t
  {
    if t.nanoOfDay + NanosPerHour >= NanosPerDay {
      NextDayRoundTrip(t);
    }
  }

  /** `t.minusMonths(1)`: the same day of the previous month, clamped to that month's
      length, at the same time of day. */
  function MinusOneMonth(t: LocalDateTime): (r: LocalDateTime)
    ensures IsBefore(r, t)
    ensures r.nanoOfDay == t.nanoOfDay && r.day <= t.day
    ensures r.month == (if t.month == 1 then 12 else t.month - 1)
    ensures r.year == (if t.month == 1 then t.year - 1 else t.year)
    ensures r.day == (if t.day <= DaysInMonth(r.year, r.month) then t.day else DaysInMonth(r.year, r.month))
  {
    var year := if t.month == 1 then t.year - 1 else t.year;
    var month := if t.month == 1 then 12 else t.month - 1;
    var last := DaysInMonth(year, month);
    Moment(year, month, if t.day <= last then t.day else last, t.nanoOfDay)
  }

  /** `YearMonth.of(year, month).atDay(1).atStartOfDay()`. */
  function MonthStart(year: int, month: int): (r: LocalDateTime)
    requires 1 <= month <= 12
    ensures r.year == year && r.month == month
    ensures forall x: LocalDateTime :: x.year == year && x.month == month ==> !IsBefore(x, r)
  {
    Moment(year, month, 1, 0)
  }

  /** 23:59:59 as a time of day, with a zero fraction of a second. */
  const LastWholeSecond: int := (23 * 3600 + 59 * 60 + 59) * NanosPerSecond

  /** `YearMonth.of(year, month).atEndOfMonth().atTime(23, 59, 59)`, as the monthly report
      builds its upper bound. */
  function MonthEndAsWritten(year: int, month: int): (r: LocalDateTime)
    requires 1 <= month <= 12
    ensures r.year == year && r.month == month && r.day == DaysInMonth(year, month)
    ensures r.nanoOfDay == LastWholeSecond && IsValid(r)
  {
    Moment(year, month, DaysInMonth(year, month), LastWholeSecond)
  }

  /** The last representable instant of the month, `atEndOfMonth().atTime(LocalTime.MAX)`. */
  function MonthEnd(year: int, month: int): (r: LocalDateTime)
    requires 1 <= month <= 12
    ensures r.year == year && r.month == month
    ensures forall x: LocalDateTime :: x.year == year && x.month == month ==> !IsBefore(r, x)
  {
    Moment(year, month, DaysInMonth(year, month), NanosPerDay - 1)
  }

  /** As written, the monthly range leaves out the final fraction of the last second of
      the month: an instant half a second before midnight on the last day is in the
      month but not in the range. */
  lemma MonthRangeAsWrittenMissesLastSecond(year: int, month: int)
    requires 1 <= month <= 12
    ensures var x := Moment(year, month, DaysInMonth(year, month), LastWholeSecond + NanosPerSecond / 2);
            IsValid(x) && !Between(x, MonthStart(year, month), MonthEndAsWritten(year, month))
  {
  }

  /** With the last instant as upper bound, the inclusive range holds exactly the
      instants of the month. */
  lemma MonthRangeCoversMonth(year: int, month: int, x: LocalDateTime)
    requires 1 <= month <= 12
    ensures Between(x, MonthStart(year, month), MonthEnd(year, month))
        <==> x.year == year && x.month == month
  {
  }
}
