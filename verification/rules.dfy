/**
 * The shift engine of lib/logic.ts as it runs: each store rule looks its
 * people up, starts from an empty list and appends shifts under the day's
 * conditions, returning early where the source does. Each rule is proved to
 * produce exactly its store's plan filled from the roster (module Rota).
 */
module StoreRules {

  import opened Wrappers
  import opened Text
  import opened Types
  import opened Lookup
  import opened Rota

  /** The shift a looked-up employee contributes, or nothing when the look-up failed. */
  function Staffed(e: Option<Employee>, time: string, kind: ShiftType): seq<Shift> {
    if e.Some? then [Shift(e.value.name, time, kind)] else []
  }

  /** `if (emp) shifts.push({ emp: emp.name, time, type })`. */
  method Push(shifts: seq<Shift>, e: Option<Employee>, time: string, kind: ShiftType) returns (r: seq<Shift>)
    ensures r == shifts + Staffed(e, time, kind)
    ensures shifts == [] ==> r == Staffed(e, time, kind)
  {
    r := shifts;
    if e.Some? {
      r := r + [Shift(e.value.name, time, kind)];
    }
    assert shifts == [] ==> shifts + Staffed(e, time, kind) == Staffed(e, time, kind);
  }

  /*
   * The lemmas below relate a rule's appends to its plan one slot at a time.
   * Each takes the employee the rule looked up for the role, so that the
   * rule's list and the filled plan are built from the same terms.
   */

  /** A one-role plan yields whoever the role's look-up finds. */
  lemma FillSingle(parts: seq<string>, time: string, kind: ShiftType, roster: seq<Employee>, e: Option<Employee>)
    requires e == FindAny(roster, parts)
    ensures Fill([Role(parts, time, kind)], roster) == Staffed(e, time, kind)
  {
    FillOne(Role(parts, time, kind), roster);
  }

  /** A second role appends whoever its look-up finds. */
  lemma FillPair(a: Slot, parts: seq<string>, time: string, kind: ShiftType, roster: seq<Employee>, e: Option<Employee>)
    requires e == FindAny(roster, parts)
    ensures Fill([a, Role(parts, time, kind)], roster) == Fill([a], roster) + Staffed(e, time, kind)
  {
    FillSnoc([a], Role(parts, time, kind), roster);
    assert [a] + [Role(parts, time, kind)] == [a, Role(parts, time, kind)];
  }

  /** Extending a plan by a role extends its shifts by whoever the role's look-up finds. */
  lemma FillRole(p: seq<Slot>, parts: seq<string>, time: string, kind: ShiftType, roster: seq<Employee>, e: Option<Employee>)
    requires e == FindAny(roster, parts)
    ensures Fill(p + [Role(parts, time, kind)], roster) == Fill(p, roster) + Staffed(e, time, kind)
  {
    FillSnoc(p, Role(parts, time, kind), roster);
  }

  /** Extending a plan by a role only when `present` holds. */
  lemma FillOptional(p: seq<Slot>, present: bool, parts: seq<string>, time: string, kind: ShiftType,
                     roster: seq<Employee>, e: Option<Employee>)
    requires e == FindAny(roster, parts)
    ensures Fill(p + (if present then [Role(parts, time, kind)] else []), roster)
         == if present then Fill(p, roster) + Staffed(e, time, kind) else Fill(p, roster)
  {
    if present {
      FillRole(p, parts, time, kind, roster, e);
    } else {
      assert p + [] == p;
    }
  }

  method SanJulianShifts(store: Store, day: Day, roster: seq<Employee>, isHoliday: bool) returns (shifts: seq<Shift>)
    ensures shifts == Fill(SanJulianPlan(store, day, isHoliday), roster)
  {
    var carmen := FindEmp(roster, "CARMEN");
    var natalia := FindEmp(roster, "NATALIA");
    var jorge := FindEmp(roster, "JORGE");
    var d := day.dayOfWeek;

    shifts := [];
    var openClose := SanJulianHours(store, day, isHoliday);

    if Blank(store.openSunday) && (d == Sunday || isHoliday) {
      FillOne(Fixed(Cerrado, Cerrado, Holiday), roster);
      return [ClosedShift];
    }

    if d == Sunday || isHoliday {
      var mainEmp := if IsEvenWeek(day) then natalia else carmen;
      var mainParts := if IsEvenWeek(day) then ["NATALIA"] else ["CARMEN"];
      shifts := Push(shifts, mainEmp, openClose, MainKind(isHoliday));
      FillSingle(mainParts, openClose, MainKind(isHoliday), roster, mainEmp);
      shifts := Push(shifts, jorge, "09:30 - 14:30", Reinforcement);
      FillPair(Role(mainParts, openClose, MainKind(isHoliday)), ["JORGE"], "09:30 - 14:30", Reinforcement, roster, jorge);
      return;
    }

    if d == Saturday {
      var mainEmp := if IsEvenWeek(day) then natalia else carmen;
      shifts := Push(shifts, mainEmp, openClose, Standard);
      FillSingle(if IsEvenWeek(day) then ["NATALIA"] else ["CARMEN"], openClose, Standard, roster, mainEmp);
      return;
    }

    if d == Wednesday {
      shifts := Push(shifts, carmen, openClose, Standard);
      FillSingle(["CARMEN"], openClose, Standard, roster, carmen);
      return;
    }

    var isEven := IsEvenWeek(day);
    if isEven {
      if d == 5 {
        shifts := Push(shifts, natalia, openClose, Standard);
        FillSingle(["NATALIA"], openClose, Standard, roster, natalia);
      } else {
        shifts := Push(shifts, carmen, openClose, Standard);
        FillSingle(["CARMEN"], openClose, Standard, roster, carmen);
      }
    } else if d == 1 || d == 2 || d == 4 || d == 5 {
      shifts := Push(shifts, natalia, openClose, Standard);
      FillSingle(["NATALIA"], openClose, Standard, roster, natalia);
    }
  }

  method CastralvoShifts(store: Store, day: Day, roster: seq<Employee>, isHoliday: bool) returns (shifts: seq<Shift>)
    ensures shifts == Fill(CastralvoPlan(day, isHoliday), roster)
  {
    var mar := FindEmp(roster, "MAR");
    var rosa := FindEmp(roster, "ROSA");
    var esther := FindEmp(roster, "ESTHER");
    var lara := FindEmp(roster, "LARA");
    var d := day.dayOfWeek;

    shifts := [];
    var openClose := CastralvoHours(day, isHoliday);
    var isEven := IsEvenWeek(day);

    if d == Saturday || d == Sunday || isHoliday {
      if isEven {
        shifts := Push(shifts, rosa, openClose, MainKind(isHoliday));
        FillSingle(["ROSA"], openClose, MainKind(isHoliday), roster, rosa);
        shifts := Push(shifts, esther, "08:00 - 14:30", Reinforcement);
        FillPair(Role(["ROSA"], openClose, MainKind(isHoliday)), ["ESTHER"], "08:00 - 14:30", Reinforcement, roster, esther);
      } else {
        shifts := Push(shifts, mar, openClose, MainKind(isHoliday));
        FillSingle(["MAR"], openClose, MainKind(isHoliday), roster, mar);
        shifts := Push(shifts, lara, "08:00 - 14:30", Reinforcement);
        FillPair(Role(["MAR"], openClose, MainKind(isHoliday)), ["LARA"], "08:00 - 14:30", Reinforcement, roster, lara);
      }
      return;
    }

    shifts := Push(shifts, esther, "07:00 - 13:30", Reinforcement);
    FillSingle(["ESTHER"], "07:00 - 13:30", Reinforcement, roster, esther);
    var reinforcement := Role(["ESTHER"], "07:00 - 13:30", Reinforcement);

    if isEven {
      var main := if d % 2 == 0 then rosa else mar;
      shifts := Push(shifts, main, openClose, Standard);
      FillPair(reinforcement, if d % 2 == 0 then ["ROSA"] else ["MAR"], openClose, Standard, roster, main);
    } else {
      var main := if d % 2 != 0 then mar else rosa;
      shifts := Push(shifts, main, openClose, Standard);
      FillPair(reinforcement, if d % 2 != 0 then ["MAR"] else ["ROSA"], openClose, Standard, roster, main);
    }
  }

  method AvAragonShifts(store: Store, day: Day, roster: seq<Employee>, isHoliday: bool) returns (shifts: seq<Shift>)
    ensures shifts == Fill(AvAragonPlan(day, isHoliday), roster)
  {
    var esther := FindEmp(roster, "ESTHER");
    var mjose := FindEmp(roster, "JOSE");
    var d := day.dayOfWeek;

    shifts := [];
    var time := AvAragonHours(day, isHoliday);

    if d == Wednesday && !isHoliday {
      FillOne(Fixed(LoanedNatalia, time, Standard), roster);
      return [Shift(LoanedNatalia, time, Standard)];
    }

    if d == Saturday || d == Sunday || isHoliday {
      var isEven := IsEvenWeek(day);
      var main := if isEven then mjose else esther;
      shifts := Push(shifts, main, time, MainKind(isHoliday));
      FillSingle(if isEven then ["JOSE"] else ["ESTHER"], time, MainKind(isHoliday), roster, main);
      return;
    }

    if d == 1 || d == 2 || d == 4 || d == 5 {
      shifts := Push(shifts, esther, time, Standard);
      FillSingle(["ESTHER"], time, Standard, roster, esther);
      var overlap := d == 1 || d == 2 || d == 5;
      if overlap {
        shifts := Push(shifts, mjose, "09:00 - 13:00", Reinforcement);
      }
      FillOptional([Role(["ESTHER"], time, Standard)], overlap, ["JOSE"], "09:00 - 13:00", Reinforcement, roster, mjose);
    }
  }

  method StaAmaliaShifts(store: Store, day: Day, roster: seq<Employee>, isHoliday: bool) returns (shifts: seq<Shift>)
    ensures shifts == Fill(StaAmaliaPlan(day, isHoliday), roster)
  {
    StaAmaliaPlanSteps(day, isHoliday);
    var asun := FindEmp(roster, "ASUN");
    var bea := FindEmp(roster, "BEA");
    var iman := FindAny(roster, ImanParts);
    var clara := FindEmp(roster, "CLARA");
    var d := day.dayOfWeek;
    var weekend := d == Saturday || d == Sunday || isHoliday;

    shifts := [];
    var openClose := StaAmaliaHours(day, isHoliday);

    var asunDay := d != Sunday || isHoliday;
    if asunDay {
      shifts := Push(shifts, asun, openClose, MainKind(isHoliday));
    }
    FillOptional([], asunDay, ["ASUN"], openClose, MainKind(isHoliday), roster, asun);
    ghost var plan := [] + (if asunDay then [Role(["ASUN"], openClose, MainKind(isHoliday))] else []);

    var refParts := if IsEvenWeek(day) then ["CLARA"] else ImanParts;
    var refEmp := if IsEvenWeek(day) then clara else iman;
    if weekend {
      shifts := Push(shifts, refEmp, "09:15 - 14:15", Reinforcement);
    }
    FillOptional(plan, weekend, refParts, "09:15 - 14:15", Reinforcement, roster, refEmp);
    plan := plan + (if weekend then [Role(refParts, "09:15 - 14:15", Reinforcement)] else []);

    var beaTime := if weekend then "08:00 - 12:00" else "07:30 - 12:00";
    shifts := Push(shifts, bea, beaTime, Reinforcement);
    FillRole(plan, ["BEA"], beaTime, Reinforcement, roster, bea);
    plan := plan + [Role(["BEA"], beaTime, Reinforcement)];

    var tueFri := (d == 5 || d == 2) && !isHoliday;
    if tueFri {
      shifts := Push(shifts, iman, "09:15 - 13:15", Reinforcement);
    }
    FillOptional(plan, tueFri, ImanParts, "09:15 - 13:15", Reinforcement, roster, iman);
  }

  /** Sta Amalia's plan, block by block, in the order the rule appends them. */
  lemma StaAmaliaPlanSteps(day: Day, isHoliday: bool)
    ensures StaAmaliaPlan(day, isHoliday) ==
      [] + (if day.dayOfWeek != Sunday || isHoliday then [Role(["ASUN"], StaAmaliaHours(day, isHoliday), MainKind(isHoliday))] else [])
         + (if WeekendOrHoliday(day, isHoliday) then [Role(if IsEvenWeek(day) then ["CLARA"] else ImanParts, "09:15 - 14:15", Reinforcement)] else [])
         + [Role(["BEA"], if WeekendOrHoliday(day, isHoliday) then "08:00 - 12:00" else "07:30 - 12:00", Reinforcement)]
         + (if (day.dayOfWeek == 5 || day.dayOfWeek == 2) && !isHoliday then [Role(ImanParts, "09:15 - 13:15", Reinforcement)] else [])
  {
    var main := if day.dayOfWeek != Sunday || isHoliday then [Role(["ASUN"], StaAmaliaHours(day, isHoliday), MainKind(isHoliday))] else [];
    assert [] + main == main;
  }

  method FuenfrescaShifts(store: Store, day: Day, roster: seq<Employee>, isHoliday: bool) returns (shifts: seq<Shift>)
    ensures shifts == Fill(FuenfrescaPlan(day, isHoliday), roster)
  {
    var yolanda := FindEmp(roster, "YOLANDA");
    var mari := FindEmp(roster, "MARI");
    var judith := FindEmp(roster, "JUDITH");
    var paola := FindEmp(roster, "PAOLA");
    var d := day.dayOfWeek;

    shifts := [];
    var openClose := FuenfrescaHours;
    var isEven := IsEvenWeek(day);

    if d == Saturday || d == Sunday || isHoliday {
      var main := if isEven then mari else yolanda;
      var mainParts := if isEven then ["MARI"] else ["YOLANDA"];
      shifts := Push(shifts, main, openClose, MainKind(isHoliday));
      FillSingle(mainParts, openClose, MainKind(isHoliday), roster, main);
      var ref := if isEven then paola else judith;
      shifts := Push(shifts, ref, "09:30 - 14:30", Reinforcement);
      FillPair(Role(mainParts, openClose, MainKind(isHoliday)), if isEven then ["PAOLA"] else ["JUDITH"],
               "09:30 - 14:30", Reinforcement, roster, ref);
      return;
    }

    if d == Saturday || d == Sunday {
      return;
    }

    if isEven {
      if d == 1 || d == 3 {
        shifts := Push(shifts, mari, openClose, Standard);
        FillSingle(["MARI"], openClose, Standard, roster, mari);
      } else {
        shifts := Push(shifts, yolanda, openClose, Standard);
        FillSingle(["YOLANDA"], openClose, Standard, roster, yolanda);
      }
      var overlap := d == 1 || d == 3;
      if overlap {
        shifts := Push(shifts, yolanda, "08:00 - 13:00", Reinforcement);
      }
      FillOptional([Role(if overlap then ["MARI"] else ["YOLANDA"], openClose, Standard)], overlap,
                   ["YOLANDA"], "08:00 - 13:00", Reinforcement, roster, yolanda);
    } else if d == 2 || d == 4 {
      shifts := Push(shifts, mari, openClose, Standard);
      FillSingle(["MARI"], openClose, Standard, roster, mari);
    } else {
      shifts := Push(shifts, yolanda, openClose, Standard);
      FillSingle(["YOLANDA"], openClose, Standard, roster, yolanda);
      var overlap := d == 1 || d == 3 || d == 5;
      if overlap {
        shifts := Push(shifts, mari, "08:00 - 13:00", Reinforcement);
      }
      FillOptional([Role(["YOLANDA"], openClose, Standard)], overlap, ["MARI"], "08:00 - 13:00", Reinforcement, roster, mari);
    }
  }

  method SanJuanShifts(store: Store, day: Day, roster: seq<Employee>, isHoliday: bool) returns (shifts: seq<Shift>)
    ensures shifts == Fill(SanJuanPlan(day, isHoliday), roster)
  {
    var angela := FindAny(roster, AngelaParts);
    var isabel := FindEmp(roster, "ISABEL");
    var d := day.dayOfWeek;

    shifts := [];
    var openClose := SanJuanHours(day, isHoliday);

    if d == Saturday || d == Sunday || isHoliday {
      var isEven := IsEvenWeek(day);
      var main := if isEven then isabel else angela;
      shifts := Push(shifts, main, openClose, MainKind(isHoliday));
      FillSingle(if isEven then ["ISABEL"] else AngelaParts, openClose, MainKind(isHoliday), roster, main);
      return;
    }

    var isEven := IsEvenWeek(day);
    if isEven {
      shifts := Push(shifts, angela, openClose, Standard);
      FillSingle(AngelaParts, openClose, Standard, roster, angela);
      if d == Wednesday {
        shifts := Push(shifts, isabel, "09:30 - 13:30", Reinforcement);
      }
      FillOptional([Role(AngelaParts, openClose, Standard)], d == Wednesday, ["ISABEL"], "09:30 - 13:30", Reinforcement, roster, isabel);
    } else {
      var mwf := d == 1 || d == 3 || d == 5;
      if mwf {
        shifts := Push(shifts, angela, openClose, Standard);
        FillSingle(AngelaParts, openClose, Standard, roster, angela);
      } else {
        shifts := Push(shifts, isabel, openClose, Standard);
        FillSingle(["ISABEL"], openClose, Standard, roster, isabel);
      }
      if d == 5 {
        shifts := Push(shifts, isabel, "09:30 - 13:30", Reinforcement);
      }
      FillOptional([Role(if mwf then AngelaParts else ["ISABEL"], openClose, Standard)], d == 5,
                   ["ISABEL"], "09:30 - 13:30", Reinforcement, roster, isabel);
    }
  }

  /** The fallback for a store no rule set claims: no shifts. */
  method GenericShifts(store: Store, day: Day, roster: seq<Employee>, isHoliday: bool) returns (shifts: seq<Shift>)
    ensures shifts == Fill(StorePlan(Generic, store, day, isHoliday), roster)
  {
    shifts := [];
  }

  /**
   * `getStoreShifts`: classify the day, then hand it to the first rule set
   * whose token the normalised store name contains, or to the fallback.
   */
  method GetStoreShifts(store: Store, day: Day, roster: seq<Employee>, holidays: seq<HolidayDate>)
    returns (shifts: seq<Shift>)
    ensures shifts == Schedule(store, day, roster, holidays)
  {
    var isHoliday := IsHoliday(holidays, day.iso);
    var name := NormalizeStoreName(store.name);
    shifts := RunRules(name, store, day, roster, isHoliday);
  }

  /** The chain of token tests of `getStoreShifts` on the normalised name `key`. */
  method RunRules(key: string, store: Store, day: Day, roster: seq<Employee>, isHoliday: bool)
    returns (shifts: seq<Shift>)
    ensures shifts == Fill(StorePlan(Classify(key), store, day, isHoliday), roster)
  {
    ghost var k := Classify(key);
    if Contains(key, "JULIAN") {
      assert k == SanJulian;
      shifts := SanJulianShifts(store, day, roster, isHoliday);
      return;
    }
    if Contains(key, "CASTRALVO") {
      assert k == Castralvo;
      shifts := CastralvoShifts(store, day, roster, isHoliday);
      return;
    }
    if Contains(key, "ARAGON") {
      assert k == AvAragon;
      shifts := AvAragonShifts(store, day, roster, isHoliday);
      return;
    }
    if Contains(key, "AMALIA") {
      assert k == StaAmalia;
      shifts := StaAmaliaShifts(store, day, roster, isHoliday);
      return;
    }
    if Contains(key, "FUENFRESCA") {
      assert k == Fuenfresca;
      shifts := FuenfrescaShifts(store, day, roster, isHoliday);
      return;
    }
    if Contains(key, "JUAN") {
      assert k == SanJuan;
      shifts := SanJuanShifts(store, day, roster, isHoliday);
      return;
    }
    assert k == Generic;
    shifts := GenericShifts(store, day, roster, isHoliday);
  }
}
