/**
  Second-precision date-times with the validity rules that Python's
  `datetime(year, month, day, hour, minute, second)` constructor enforces:
  years 1..9999, the proleptic Gregorian calendar, and a 24-hour clock
  without leap seconds.
 */
module Gregorian {

  const MinYear := 1
  const MaxYear := 9999

  /** A calendar date plus a time of day, to the second. */
  datatype DateTime = DateTime(year: int, month: int, day: int, hour: int, minute: int, second: int)

  /** A time of day, as Python's `datetime.time()` yields it (microseconds dropped). */
  datatype Time = Time(hour: int, minute: int, second: int)

  predicate IsLeapYear(year: int) {
    year % 4 == 0 && (year % 100 != 0 || year % 400 == 0)
  }

  /** Number of days in `month` of `year`, for a month in 1..12. */
  function DaysInMonth(year: int, month: int): (n: int)
    requires 1 <= month <= 12
    ensures 28 <= n <= 31
    ensures n == 31 <==> month in {1, 3, 5, 7, 8, 10, 12}
    ensures n == 30 <==> month in {4, 6, 9, 11}
    ensures n == 29 <==> month == 2 && IsLeapYear(year)
    ensures n == 28 <==> month == 2 && !IsLeapYear(year)
  {
    if month == 2 then (if IsLeapYear(year) then 29 else 28)
    else if month == 4 || month == 6 || month == 9 || month == 11 then 30
    else 31
  }

  predicate ValidDate(year: int, month: int, day: int) {
    && MinYear <= year <= MaxYear
    && 1 <= month <= 12
    && 1 <= day <= DaysInMonth(year, month)
  }

  predicate ValidTime(t: Time) {
    0 <= t.hour < 24 && 0 <= t.minute < 60 && 0 <= t.second < 60
  }

  /** What Python's datetime constructor accepts. */
  predicate Valid(dt: DateTime) {
    ValidDate(dt.year, dt.month, dt.day) && ValidTime(TimeOf(dt))
  }

  /** `dt.time()` */
  function TimeOf(dt: DateTime): Time {
    Time(dt.hour, dt.minute, dt.second)
  }

  /** The calendar widget's `active_date` list for `dt`: day first, year last. */
  function DateList(dt: DateTime): seq<int> {
    [dt.day, dt.month, dt.year]
  }

  /** A `[day, month, year]` list naming a real date. */
  predicate IsDateList(value: seq<int>) {
    |value| == 3 && ValidDate(value[2], value[1], value[0])
  }

  /**
    `datetime(value[2], value[1], value[0], dt.hour, dt.minute, dt.second)`:
    the date read from a `[day, month, year]` list, the time kept from `dt`.
   */
  function WithDate(dt: DateTime, value: seq<int>): (r: DateTime)
    requires Valid(dt) && IsDateList(value)
    ensures Valid(r)
    ensures DateList(r) == value
    ensures TimeOf(r) == TimeOf(dt)
  {
    DateTime(value[2], value[1], value[0], dt.hour, dt.minute, dt.second)
  }

  /** `datetime(dt.year, dt.month, dt.day, t.hour, t.minute, t.second)` */
  function WithTime(dt: DateTime, t: Time): (r: DateTime)
    requires Valid(dt) && ValidTime(t)
    ensures Valid(r)
    ensures TimeOf(r) == t
    ensures DateList(r) == DateList(dt)
  {
    DateTime(dt.year, dt.month, dt.day, t.hour, t.minute, t.second)
  }

  /** A date-time is fixed by its calendar list and its time of day. */
  lemma DateAndTimeDetermine(a: DateTime, b: DateTime)
    requires DateList(a) == DateList(b) && TimeOf(a) == TimeOf(b)
    ensures a == b
  {
  }
}
