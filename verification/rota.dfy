/**
 * The rota of each store, stated independently of who is on the roster.
 *
 * For a store and a day, a plan lists the slots to staff, in output order.
 * A slot is either a role, filled by looking an employee up by name fragment,
 * or a fixed entry carrying a literal display name. `Fill` turns a plan into
 * shifts against a roster: a role whose look-up fails yields no shift and is
 * never given to somebody else.
 */
module Rota {

  import opened Wrappers
  import opened Text
  import opened Types
  import opened Lookup

  datatype Slot =
    | Role(parts: seq<string>, time: string, kind: ShiftType)
    | Fixed(emp: string, time: string, kind: ShiftType)

  /** The shift a slot yields against a roster: one shift, or none for a vacant role. */
  function FillSlot(slot: Slot, roster: seq<Employee>): seq<Shift> {
    match slot
    case Role(parts, time, kind) =>
      (match FindAny(roster, parts)
       case Some(e) => [Shift(e.name, time, kind)]
       case None => [])
    case Fixed(emp, time, kind) => [Shift(emp, time, kind)]
  }

  /** The shifts of a plan: each slot in turn, vacant roles dropped. */
  function Fill(plan: seq<Slot>, roster: seq<Employee>): seq<Shift> {
    if plan == [] then [] else FillSlot(plan[0], roster) + Fill(plan[1..], roster)
  }

  /** Filling distributes over the concatenation of plans. */
  lemma {:induction false} FillAppend(p: seq<Slot>, q: seq<Slot>, roster: seq<Employee>)
    ensures Fill(p + q, roster) == Fill(p, roster) + Fill(q, roster)
  {
    if p == [] {
      assert p + q == q;
    } else {
      assert (p + q)[1..] == p[1..] + q;
      FillAppend(p[1..], q, roster);
    }
  }

  /** A one-slot plan yields exactly that slot's shift, if any. */
  lemma FillOne(slot: Slot, roster: seq<Employee>)
    ensures Fill([slot], roster) == FillSlot(slot, roster)
  {
    assert [slot][1..] == [];
  }

  /** Appending a slot to a plan appends that slot's shift, if any. */
  lemma FillSnoc(p: seq<Slot>, slot: Slot, roster: seq<Employee>)
    ensures Fill(p + [slot], roster) == Fill(p, roster) + FillSlot(slot, roster)
  {
    FillAppend(p, [slot], roster);
    FillOne(slot, roster);
  }

  /** The tag of a store's main shift: 'holiday_shift' on a holiday, 'standard' otherwise. */
  function MainKind(isHoliday: bool): ShiftType {
    if isHoliday then HolidayShift else Standard
  }

  predicate WeekendOrHoliday(day: Day, isHoliday: bool) {
    day.dayOfWeek == Saturday || day.dayOfWeek == Sunday || isHoliday
  }

  /** `${value}` in a template literal: an absent optional field renders as "undefined". */
  function Render(field: Option<string>): string {
    match field
    case Some(v) => v
    case None => "undefined"
  }

  /** A JavaScript falsy time: absent or the empty string. */
  predicate Blank(field: Option<string>) {
    field.None? || field.value == ""
  }

  function Range(open: string, close: string): string {
    open + " - " + close
  }

  // ---------------------------------------------------------------- San Julián

  const Cerrado := "CERRADO"

  /** The closed sentinel: a store with no Sunday hours on a Sunday or holiday. */
  const ClosedShift := Shift(Cerrado, Cerrado, Holiday)

  /** San Julián's hours come from the store's configuration, by day type. */
  function SanJulianHours(store: Store, day: Day, isHoliday: bool): string {
    if isHoliday || day.dayOfWeek == Sunday then Range(Render(store.openSunday), Render(store.closeSunday))
    else if day.dayOfWeek == Saturday then Range(Render(store.openSaturday), Render(store.closeSaturday))
    else Range(store.openWeekday, store.closeWeekday)
  }

  predicate SanJulianClosed(store: Store, day: Day, isHoliday: bool) {
    Blank(store.openSunday) && (day.dayOfWeek == Sunday || isHoliday)
  }

  /**
   * Carmen and Natalia alternate the weekend (Natalia in even weeks); Jorge
   * reinforces on Sundays and holidays; Carmen alone on Wednesdays; the other
   * weekdays follow week parity.
   */
  function SanJulianPlan(store: Store, day: Day, isHoliday: bool): seq<Slot> {
    var d := day.dayOfWeek;
    var even := IsEvenWeek(day);
    var hours := SanJulianHours(store, day, isHoliday);
    var weekendMain := if even then ["NATALIA"] else ["CARMEN"];
    if SanJulianClosed(store, day, isHoliday) then [Fixed(Cerrado, Cerrado, Holiday)]
    else if d == Sunday || isHoliday then
      [Role(weekendMain, hours, MainKind(isHoliday)), Role(["JORGE"], "09:30 - 14:30", Reinforcement)]
    else if d == Saturday then [Role(weekendMain, hours, Standard)]
    else if d == Wednesday then [Role(["CARMEN"], hours, Standard)]
    else if even then [Role(if d == 5 then ["NATALIA"] else ["CARMEN"], hours, Standard)]
    else if d == 1 || d == 2 || d == 4 || d == 5 then [Role(["NATALIA"], hours, Standard)]
    else []
  }

  // ---------------------------------------------------------------- Castralvo

  /** Castralvo's main hours: the same literal on every kind of day. */
  function CastralvoHours(day: Day, isHoliday: bool): string {
    if day.dayOfWeek == Sunday || isHoliday then "07:00 - 15:00" else "07:00 - 15:00"
  }

  /**
   * Weekends and holidays: Rosa with Esther in even weeks, Mar with Lara in
   * odd weeks. Weekdays: Esther reinforces, and the main shift goes to Rosa on
   * even-numbered days and to Mar on odd-numbered ones.
   */
  function CastralvoPlan(day: Day, isHoliday: bool): seq<Slot> {
    var d := day.dayOfWeek;
    var even := IsEvenWeek(day);
    var hours := CastralvoHours(day, isHoliday);
    if WeekendOrHoliday(day, isHoliday) then
      if even then
        [Role(["ROSA"], hours, MainKind(isHoliday)), Role(["ESTHER"], "08:00 - 14:30", Reinforcement)]
      else
        [Role(["MAR"], hours, MainKind(isHoliday)), Role(["LARA"], "08:00 - 14:30", Reinforcement)]
    else
      [Role(["ESTHER"], "07:00 - 13:30", Reinforcement),
       Role(if even then (if d % 2 == 0 then ["ROSA"] else ["MAR"]) else (if d % 2 != 0 then ["MAR"] else ["ROSA"]),
            hours, Standard)]
  }

  // ---------------------------------------------------------------- Av Aragón

  /** The employee lent by San Julián on Wednesdays, by display name only. */
  const LoanedNatalia := "NATALIA (San Juli\U{00E1}n)"

  function AvAragonHours(day: Day, isHoliday: bool): string {
    if isHoliday || day.dayOfWeek == Sunday then "08:30 - 14:15"
    else if day.dayOfWeek == Saturday then "07:30 - 14:15"
    else "08:00 - 14:15"
  }

  /**
   * Wednesday (not a holiday): the loaned Natalia alone. Weekends and
   * holidays: M Jose in even weeks, Esther in odd weeks. Other weekdays:
   * Esther, with M Jose reinforcing on Monday, Tuesday and Friday.
   */
  function AvAragonPlan(day: Day, isHoliday: bool): seq<Slot> {
    var d := day.dayOfWeek;
    var hours := AvAragonHours(day, isHoliday);
    if d == Wednesday && !isHoliday then [Fixed(LoanedNatalia, hours, Standard)]
    else if WeekendOrHoliday(day, isHoliday) then
      [Role(if IsEvenWeek(day) then ["JOSE"] else ["ESTHER"], hours, MainKind(isHoliday))]
    else if d == 1 || d == 2 || d == 4 || d == 5 then
      [Role(["ESTHER"], hours, Standard)]
      + (if d == 1 || d == 2 || d == 5 then [Role(["JOSE"], "09:00 - 13:00", Reinforcement)] else [])
    else []
  }

  // ---------------------------------------------------------------- Sta Amalia

  /** Imán is looked up with and without the accent. */
  const ImanParts := ["IM\U{00C1}N", "IMAN"]

  function StaAmaliaHours(day: Day, isHoliday: bool): string {
    if WeekendOrHoliday(day, isHoliday) then "08:00 - 14:45" else "07:30 - 14:45"
  }

  /**
   * Asun every day but a non-holiday Sunday; Clara (even weeks) or Imán (odd
   * weeks) reinforce on weekends and holidays; Bea reinforces every day;
   * Imán reinforces on Tuesdays and Fridays that are not holidays.
   */
  function StaAmaliaPlan(day: Day, isHoliday: bool): seq<Slot> {
    var d := day.dayOfWeek;
    var weekend := WeekendOrHoliday(day, isHoliday);
    var hours := StaAmaliaHours(day, isHoliday);
    (if d != Sunday || isHoliday then [Role(["ASUN"], hours, MainKind(isHoliday))] else [])
    + (if weekend then [Role(if IsEvenWeek(day) then ["CLARA"] else ImanParts, "09:15 - 14:15", Reinforcement)] else [])
    + [Role(["BEA"], if weekend then "08:00 - 12:00" else "07:30 - 12:00", Reinforcement)]
    + (if (d == 5 || d == 2) && !isHoliday then [Role(ImanParts, "09:15 - 13:15", Reinforcement)] else [])
  }

  // ---------------------------------------------------------------- Fuenfresca

  const FuenfrescaHours := "07:30 - 14:30"

  /**
   * Weekends and holidays: Mari with Paola in even weeks, Yolanda with Judith
   * in odd weeks. Weekdays: even weeks give Mari Monday and Wednesday (Yolanda
   * reinforcing) and Yolanda the rest; odd weeks give Mari Tuesday and
   * Thursday and Yolanda the rest (Mari reinforcing Monday, Wednesday, Friday).
   */
  function FuenfrescaPlan(day: Day, isHoliday: bool): seq<Slot> {
    var d := day.dayOfWeek;
    var even := IsEvenWeek(day);
    if WeekendOrHoliday(day, isHoliday) then
      [Role(if even then ["MARI"] else ["YOLANDA"], FuenfrescaHours, MainKind(isHoliday)),
       Role(if even then ["PAOLA"] else ["JUDITH"], "09:30 - 14:30", Reinforcement)]
    else if d == Saturday || d == Sunday then []
    else if even then
      [Role(if d == 1 || d == 3 then ["MARI"] else ["YOLANDA"], FuenfrescaHours, Standard)]
      + (if d == 1 || d == 3 then [Role(["YOLANDA"], "08:00 - 13:00", Reinforcement)] else [])
    else if d == 2 || d == 4 then [Role(["MARI"], FuenfrescaHours, Standard)]
    else
      [Role(["YOLANDA"], FuenfrescaHours, Standard)]
      + (if d == 1 || d == 3 || d == 5 then [Role(["MARI"], "08:00 - 13:00", Reinforcement)] else [])
  }

  // ---------------------------------------------------------------- San Juan

  /** Ángela is looked up with and without the accent. */
  const AngelaParts := ["\U{00C1}NGELA", "ANGELA"]

  function SanJuanHours(day: Day, isHoliday: bool): string {
    if day.dayOfWeek == Sunday || isHoliday then "09:30 - 14:45"
    else if day.dayOfWeek == Saturday then "09:00 - 14:45"
    else "09:00 - 15:15"
  }

  /**
   * Weekends and holidays: Isabel in even weeks, Ángela in odd weeks.
   * Even weeks: Ángela every weekday, Isabel reinforcing on Wednesday. Odd
   * weeks: Ángela Monday, Wednesday, Friday, Isabel the other weekdays and a
   * reinforcement on Friday.
   */
  function SanJuanPlan(day: Day, isHoliday: bool): seq<Slot> {
    var d := day.dayOfWeek;
    var even := IsEvenWeek(day);
    var hours := SanJuanHours(day, isHoliday);
    if WeekendOrHoliday(day, isHoliday) then
      [Role(if even then ["ISABEL"] else AngelaParts, hours, MainKind(isHoliday))]
    else if even then
      [Role(AngelaParts, hours, Standard)]
      + (if d == Wednesday then [Role(["ISABEL"], "09:30 - 13:30", Reinforcement)] else [])
    else
      [Role(if d == 1 || d == 3 || d == 5 then AngelaParts else ["ISABEL"], hours, Standard)]
      + (if d == 5 then [Role(["ISABEL"], "09:30 - 13:30", Reinforcement)] else [])
  }

  // ---------------------------------------------------------------- dispatch

  /** The rule sets, plus the generic fallback for a store no rule set claims. */
  datatype StoreKind = SanJulian | Castralvo | AvAragon | StaAmalia | Fuenfresca | SanJuan | Generic

  /** The token a normalised store name must contain to select a rule set. */
  function Token(k: StoreKind): string {
    match k
    case SanJulian => "JULIAN"
    case Castralvo => "CASTRALVO"
    case AvAragon => "ARAGON"
    case StaAmalia => "AMALIA"
    case Fuenfresca => "FUENFRESCA"
    case SanJuan => "JUAN"
    case Generic => ""
  }

  /** Position of a rule set in the order the tokens are tried. */
  function Rank(k: StoreKind): nat {
    match k
    case SanJulian => 0
    case Castralvo => 1
    case AvAragon => 2
    case StaAmalia => 3
    case Fuenfresca => 4
    case SanJuan => 5
    case Generic => 6
  }

  /** The normalised store name `key` contains the token of rule set `k`. */
  predicate HasToken(key: string, k: StoreKind) {
    Contains(key, Token(k))
  }

  /**
   * The rule set for a store name: the first token, in the fixed order
   * JULIAN, CASTRALVO, ARAGON, AMALIA, FUENFRESCA, JUAN, that the normalised
   * name contains; Generic when it contains none.
   */
  function Classify(key: string): (k: StoreKind)
    ensures k != Generic ==> HasToken(key, k)
    ensures k == Generic <==> forall j: StoreKind :: j != Generic ==> !HasToken(key, j)
  {
    if HasToken(key, SanJulian) then SanJulian
    else if HasToken(key, Castralvo) then Castralvo
    else if HasToken(key, AvAragon) then AvAragon
    else if HasToken(key, StaAmalia) then StaAmalia
    else if HasToken(key, Fuenfresca) then Fuenfresca
    else if HasToken(key, SanJuan) then SanJuan
    else Generic
  }

  /** Tokens are tried in order: no rule set whose token the name contains comes before the chosen one. */
  lemma ClassifyFirst(key: string, j: StoreKind)
    requires j != Generic && HasToken(key, j)
    ensures Classify(key) != Generic && Rank(Classify(key)) <= Rank(j)
  {
    match j
    case SanJulian =>
    case Castralvo =>
    case AvAragon =>
    case StaAmalia =>
    case Fuenfresca =>
    case SanJuan =>
  }

  /** The plan of the rule set `k`; the generic fallback plans nothing. */
  function StorePlan(k: StoreKind, store: Store, day: Day, isHoliday: bool): seq<Slot> {
    match k
    case SanJulian => SanJulianPlan(store, day, isHoliday)
    case Castralvo => CastralvoPlan(day, isHoliday)
    case AvAragon => AvAragonPlan(day, isHoliday)
    case StaAmalia => StaAmaliaPlan(day, isHoliday)
    case Fuenfresca => FuenfrescaPlan(day, isHoliday)
    case SanJuan => SanJuanPlan(day, isHoliday)
    case Generic => []
  }

  /** The shifts to run at `store` on `day`: its rule set's plan, filled from the roster. */
  function Schedule(store: Store, day: Day, roster: seq<Employee>, holidays: seq<HolidayDate>): seq<Shift> {
    Fill(StorePlan(Classify(NormalizeStoreName(store.name)), store, day, IsHoliday(holidays, day.iso)), roster)
  }
}
