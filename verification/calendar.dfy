/**
 * The calendar facts the shift engine reads off a date: the day of the week
 * (0 = Sunday, as `getDay` reports it) and the ISO 8601 week number (ISO
 * 8601:2004 section 4.1.4, week dates), on the proleptic Gregorian calendar.
 * A date is given as its year and its ordinal day within that year.
 */
module Calendar {

  import opened Types

  predicate IsLeapYear(y: int) {
    y % 4 == 0 && (y % 100 != 0 || y % 400 == 0)
  }

  function DaysInYear(y: int): int {
    if IsLeapYear(y) then 366 else 365
  }

  /** A calendar date: a year and the ordinal day within it (1 = 1 January). */
  datatype CalendarDate = CalendarDate(year: int, ordinal: int)

  predicate ValidDate(d: CalendarDate) {
    1 <= d.ordinal <= DaysInYear(d.year)
  }

  /** Days in the years before `y`, counted from 1 January of year 1. */
  function DaysBeforeYear(y: int): int {
    365 * (y - 1) + (y - 1) / 4 - (y - 1) / 100 + (y - 1) / 400
  }

  /** A running day count: 1 January of year 1 (a Monday) is day 1. */
  function DayNumber(d: CalendarDate): int {
    DaysBeforeYear(d.year) + d.ordinal
  }

  /** Day of the week, 0 = Sunday, 1 = Monday, ..., 6 = Saturday. */
  function Weekday(d: CalendarDate): DayOfWeek {
    DayNumber(d) % 7
  }

  /** ISO day of the week: 1 = Monday, ..., 7 = Sunday. */
  function IsoWeekday(d: CalendarDate): (w: int)
    ensures 1 <= w <= 7
    ensures w % 7 == Weekday(d)
  {
    if Weekday(d) == 0 then 7 else Weekday(d)
  }

  /**
   * Number of ISO weeks in year `y`: 53 when 1 January is a Thursday, or a
   * Wednesday in a leap year; 52 otherwise.
   */
  function WeeksInYear(y: int): (n: int)
    ensures n == 52 || n == 53
  {
    var jan1 := Weekday(CalendarDate(y, 1));
    if jan1 == 4 || (IsLeapYear(y) && jan1 == 3) then 53 else 52
  }

  /** Week number counted inside the date's own year, before the wrap-around at either end. */
  function RawWeek(d: CalendarDate): int {
    (d.ordinal - IsoWeekday(d) + 10) / 7
  }

  /**
   * ISO 8601 week number: week 1 is the week (Monday to Sunday) that holds the
   * year's first Thursday. Days before it belong to the last week of the
   * previous year; days after the year's last week belong to week 1 of the next.
   */
  function IsoWeek(d: CalendarDate): IsoWeekNumber
    requires ValidDate(d)
  {
    var w := RawWeek(d);
    if w < 1 then WeeksInYear(d.year - 1)
    else if w > WeeksInYear(d.year) then 1
    else w
  }

  /** The engine's view of a date whose yyyy-MM-dd rendering is `iso`. */
  function DayFor(d: CalendarDate, iso: string): Day
    requires ValidDate(d)
  {
    Day(iso, Weekday(d), IsoWeek(d))
  }
}
