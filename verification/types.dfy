/** The optional value used for absent store times and failed look-ups. */
module Wrappers {
  datatype Option<+T> = None | Some(value: T)
}

/**
 * The values the shift engine reads and produces: stores, employees,
 * holiday-calendar entries, days and shifts (lib/types.ts, lib/holidays.ts,
 * and the Shift interface of lib/logic.ts).
 */
module Types {

  import opened Wrappers

  /**
   * A store's reference data. The weekday times are required; the Saturday
   * and Sunday times may be absent (a store without Sunday hours is closed on
   * Sundays).
   */
  datatype Store = Store(
    id: int,
    name: string,
    openWeekday: string,
    closeWeekday: string,
    openSaturday: Option<string>,
    closeSaturday: Option<string>,
    openSunday: Option<string>,
    closeSunday: Option<string>)

  /** An employee of one home store, with contracted weekly hours and free-text rules. */
  datatype Employee = Employee(id: int, name: string, storeId: int, weeklyHours: real, rules: string)

  /** An entry of the holiday calendar; `date` is the yyyy-MM-dd rendering of the day. */
  datatype HolidayDate = HolidayDate(id: int, date: string, name: string)

  /** The tags a shift can carry: 'standard', 'opening', 'closing', 'holiday', 'holiday_shift', 'reinforcement'. */
  datatype ShiftType = Standard | Opening | Closing | Holiday | HolidayShift | Reinforcement

  /** One shift of the day: who, the time range "HH:MM - HH:MM" (or "CERRADO"), and its tag. */
  datatype Shift = Shift(emp: string, time: string, kind: ShiftType)

  /** Day of the week as the date library reports it: 0 = Sunday, 1 = Monday, ..., 6 = Saturday. */
  type DayOfWeek = d: int | 0 <= d <= 6

  /** An ISO 8601 week number. */
  type IsoWeekNumber = w: int | 1 <= w <= 53 witness 1

  const Sunday: DayOfWeek := 0
  const Wednesday: DayOfWeek := 3
  const Saturday: DayOfWeek := 6

  /**
   * The calendar facts the engine reads off a date: its yyyy-MM-dd rendering,
   * its day of the week and its ISO 8601 week number.
   */
  datatype Day = Day(iso: string, dayOfWeek: DayOfWeek, isoWeek: IsoWeekNumber)
}
