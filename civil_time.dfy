/** Calendar arithmetic behind java.text.SimpleDateFormat: an epoch-millisecond
    instant split into a proleptic Gregorian date and a time of day. Days and
    seconds are counted with floor division, as java.util.GregorianCalendar
    does, so instants before 1970 fall on the previous day. */
module CivilTime {

  const MillisPerSecond: int := 1000
  const SecondsPerDay: int := 86400
  const EpochYear: int := 1970

  predicate IsLeapYear(y: int)
  {
    y % 4 == 0 && (y % 100 != 0 || y % 400 == 0)
  }

  function DaysInYear(y: int): int
  {
    if IsLeapYear(y) then 366 else 365
  }

  function DaysInMonth(y: int, m: int): int
    requires 1 <= m <= 12
  {
    if m == 2 then (if IsLeapYear(y) then 29 else 28)
    else if m == 4 || m == 6 || m == 9 || m == 11 then 30
    else 31
  }

  /** Days of year `y` that lie before the first of month `m` (m == 13: the whole year). */
  function DaysBeforeMonth(y: int, m: int): int
    requires 1 <= m <= 13
  {
    var common := [0, 31, 59, 90, 120, 151, 181, 212, 243, 273, 304, 334, 365];
    common[m - 1] + (if m > 2 && IsLeapYear(y) then 1 else 0)
  }

  lemma MonthStep(y: int, m: int)
    requires 1 <= m <= 12
    ensures DaysBeforeMonth(y, m + 1) == DaysBeforeMonth(y, m) + DaysInMonth(y, m)
    ensures DaysBeforeMonth(y, 1) == 0 && DaysBeforeMonth(y, 13) == DaysInYear(y)
  {
  }

  /** Day number (days since 1970-01-01) of January 1st of year `y`. */
  function YearStart(y: int): int
    decreases if y >= EpochYear then y - EpochYear else EpochYear - y
  {
    if y == EpochYear then 0
    else if y > EpochYear then YearStart(y - 1) + DaysInYear(y - 1)
    else YearStart(y + 1) - DaysInYear(y)
  }

  lemma YearStep(y: int)
    ensures YearStart(y + 1) == YearStart(y) + DaysInYear(y)
  {
  }

  datatype Date = Date(year: int, month: int, day: int)

  predicate ValidDate(d: Date)
  {
    1 <= d.month <= 12 && 1 <= d.day <= DaysInMonth(d.year, d.month)
  }

  /** Day number of a date: the independent reference for CivilFromDays. */
  function DaysFromCivil(d: Date): int
    requires ValidDate(d)
  {
    YearStart(d.year) + DaysBeforeMonth(d.year, d.month) + d.day - 1
  }

  /** Walks from year `y` to the year that holds day `days` (counted from
      January 1st of `y`); returns that year and the day's offset in it. */
  function FindYear(days: int, y: int): (r: (int, int))
    ensures 0 <= r.1 < DaysInYear(r.0)
    ensures YearStart(r.0) + r.1 == YearStart(y) + days
    decreases if days < 0 then 400 - days else days
  {
    if days < 0 then
      YearStep(y - 1);
      FindYear(days + DaysInYear(y - 1), y - 1)
    else if days >= DaysInYear(y) then
      YearStep(y);
      FindYear(days - DaysInYear(y), y + 1)
    else
      (y, days)
  }

  /** Walks from month `m` to the month of year `y` that holds day-of-year `doy`. */
  function FindMonth(y: int, doy: int, m: int): (r: int)
    requires 1 <= m <= 12 && DaysBeforeMonth(y, m) <= doy < DaysInYear(y)
    ensures 1 <= r <= 12
    ensures DaysBeforeMonth(y, r) <= doy < DaysBeforeMonth(y, r) + DaysInMonth(y, r)
    decreases 12 - m
  {
    MonthStep(y, m);
    if m == 12 || doy < DaysBeforeMonth(y, m + 1) then m
    else FindMonth(y, doy, m + 1)
  }

  /** The calendar date of a day number; DaysFromCivil undoes it. */
  function CivilFromDays(days: int): (d: Date)
    ensures ValidDate(d) && DaysFromCivil(d) == days
  {
    var (y, doy) := FindYear(days, EpochYear);
    MonthStep(y, 1);
    var m := FindMonth(y, doy, 1);
    Date(y, m, doy - DaysBeforeMonth(y, m) + 1)
  }

  /** A calendar date with a time of day, to the second. */
  datatype DateTime = DateTime(date: Date, hour: int, minute: int, second: int)

  predicate ValidDateTime(t: DateTime)
  {
    ValidDate(t.date) && 0 <= t.hour < 24 && 0 <= t.minute < 60 && 0 <= t.second < 60
  }

  /** Seconds since 1970-01-01T00:00:00 of a date and time. */
  function EpochSecond(t: DateTime): int
    requires ValidDateTime(t)
  {
    DaysFromCivil(t.date) * SecondsPerDay + t.hour * 3600 + t.minute * 60 + t.second
  }

  /** The date and time an instant (epoch milliseconds) shows on a clock set
      to the same zone as the instant; the milliseconds are dropped. */
  function DateTimeOf(ms: int): (t: DateTime)
    ensures ValidDateTime(t)
    ensures EpochSecond(t) == ms / MillisPerSecond
  {
    var secs := ms / MillisPerSecond;
    var days := secs / SecondsPerDay;
    var secOfDay := secs % SecondsPerDay;
    DateTime(CivilFromDays(days), secOfDay / 3600, secOfDay % 3600 / 60, secOfDay % 60)
  }
}
