/**
 * What the shift engine promises, stated over the plans and over the
 * filled schedule: where every emitted name comes from, that a vacant role
 * is never handed to somebody else, the tags and reinforcement times, the
 * weekend rotations and the fixed-day special cases.
 */
module Properties {

  import opened Wrappers
  import opened Text
  import opened Types
  import opened Lookup
  import opened Rota
  import opened StoreRules
  import opened Calendar

  // ---------------------------------------------------------------- filling a plan

  /** The names of the roster's employees. */
  function RosterNames(roster: seq<Employee>): set<string> {
    set e | e in roster :: e.name
  }

  /** A shift is in the filled plan exactly when some slot of the plan yields it. */
  lemma {:induction false} FillProvenance(plan: seq<Slot>, roster: seq<Employee>)
    ensures forall s :: s in Fill(plan, roster) <==> exists j :: 0 <= j < |plan| && s in FillSlot(plan[j], roster)
  {
    if plan != [] {
      var tail := plan[1..];
      FillProvenance(tail, roster);
      forall s ensures s in Fill(plan, roster) <==> exists j :: 0 <= j < |plan| && s in FillSlot(plan[j], roster) {
        if s in Fill(tail, roster) {
          var j :| 0 <= j < |tail| && s in FillSlot(tail[j], roster);
          assert plan[j + 1] == tail[j];
        }
        if exists j :: 0 <= j < |plan| && s in FillSlot(plan[j], roster) {
          var j :| 0 <= j < |plan| && s in FillSlot(plan[j], roster);
          if j > 0 {
            assert tail[j - 1] == plan[j];
          }
        }
      }
    }
  }

  /**
   * Every shift of a filled plan names an employee of the roster, or is a
   * fixed slot of the plan copied verbatim.
   */
  lemma FillNames(plan: seq<Slot>, roster: seq<Employee>)
    ensures forall s :: s in Fill(plan, roster) ==>
              s.emp in RosterNames(roster) || exists j :: 0 <= j < |plan| && plan[j] == Fixed(s.emp, s.time, s.kind)
  {
    FillProvenance(plan, roster);
    forall s | s in Fill(plan, roster)
      ensures s.emp in RosterNames(roster) || exists j :: 0 <= j < |plan| && plan[j] == Fixed(s.emp, s.time, s.kind)
    {
      var j :| 0 <= j < |plan| && s in FillSlot(plan[j], roster);
    }
  }

  /** A role whose look-up fails contributes nothing: nobody stands in for the missing employee. */
  lemma FillSkipsVacantRole(p: seq<Slot>, parts: seq<string>, time: string, kind: ShiftType, q: seq<Slot>,
                            roster: seq<Employee>)
    requires FindAny(roster, parts).None?
    ensures Fill(p + [Role(parts, time, kind)] + q, roster) == Fill(p + q, roster)
  {
    FillAppend(p + [Role(parts, time, kind)], q, roster);
    FillSnoc(p, Role(parts, time, kind), roster);
    assert Fill(p, roster) + [] == Fill(p, roster);
    FillAppend(p, q, roster);
  }

  /** A role is staffed when its look-up finds somebody; fixed slots always are. */
  predicate Staffable(slot: Slot, roster: seq<Employee>) {
    slot.Role? ==> FindAny(roster, slot.parts).Some?
  }

  /** At most one shift per slot, and exactly one per slot precisely when every role is staffed. */
  lemma {:induction false} FillLength(plan: seq<Slot>, roster: seq<Employee>)
    ensures |Fill(plan, roster)| <= |plan|
    ensures |Fill(plan, roster)| == |plan| <==> forall j :: 0 <= j < |plan| ==> Staffable(plan[j], roster)
  {
    if plan != [] {
      var tail := plan[1..];
      FillLength(tail, roster);
      if forall j :: 0 <= j < |tail| ==> Staffable(tail[j], roster) {
        forall j | 0 <= j < |plan| && j > 0 ensures Staffable(plan[j], roster) {
          assert plan[j] == tail[j - 1];
        }
      }
      if forall j :: 0 <= j < |plan| ==> Staffable(plan[j], roster) {
        forall j | 0 <= j < |tail| ensures Staffable(tail[j], roster) {
          assert tail[j] == plan[j + 1];
        }
      }
    }
  }

  // ---------------------------------------------------------------- tags and times

  /** The literal times of the reinforcement shifts, across all stores. */
  const ReinforcementTimes: set<string> := {
    "09:30 - 14:30", "08:00 - 14:30", "07:00 - 13:30", "09:00 - 13:00", "09:15 - 14:15",
    "08:00 - 12:00", "07:30 - 12:00", "09:15 - 13:15", "08:00 - 13:00", "09:30 - 13:30"
  }

  /**
   * The tag discipline of the rules: 'standard' only on ordinary days,
   * 'holiday_shift' only for a looked-up employee on a holiday, 'holiday'
   * only for the closed sentinel, 'reinforcement' only for a looked-up
   * employee at a literal time; 'opening' and 'closing' are never produced.
   * The only literal name on a 'standard' slot is the loaned Natalia.
   */
  predicate WellTagged(slot: Slot, isHoliday: bool) {
    match slot.kind
    case Standard => !isHoliday && (slot.Fixed? ==> slot.emp == LoanedNatalia)
    case HolidayShift => isHoliday && slot.Role?
    case Holiday => slot == Fixed(Cerrado, Cerrado, Holiday)
    case Reinforcement => slot.Role? && slot.time in ReinforcementTimes
    case Opening => false
    case Closing => false
  }

  /** Every plan keeps the tag discipline. */
  lemma PlanWellTagged(k: StoreKind, store: Store, day: Day, isHoliday: bool)
    ensures forall j :: 0 <= j < |StorePlan(k, store, day, isHoliday)| ==>
              WellTagged(StorePlan(k, store, day, isHoliday)[j], isHoliday)
  {
    if k == StaAmalia {
      StaAmaliaPlanSteps(day, isHoliday);
    }
  }

  /**
   * Every shift the engine emits names a roster employee, "CERRADO" or the
   * loaned "NATALIA (San Julián)", and carries a tag and time as the tag
   * discipline allows.
   */
  lemma ScheduleShifts(store: Store, day: Day, roster: seq<Employee>, holidays: seq<HolidayDate>)
    ensures forall s :: s in Schedule(store, day, roster, holidays) ==>
              (s.emp in RosterNames(roster) || s.emp == Cerrado || s.emp == LoanedNatalia)
              && s.kind != Opening && s.kind != Closing
              && (s.kind == Standard ==> !IsHoliday(holidays, day.iso))
              && (s.kind == HolidayShift ==> IsHoliday(holidays, day.iso))
              && (s.kind == Holiday ==> s == ClosedShift)
              && (s.kind == Reinforcement ==> s.time in ReinforcementTimes)
  {
    var isHoliday := IsHoliday(holidays, day.iso);
    var plan := StorePlan(Classify(NormalizeStoreName(store.name)), store, day, isHoliday);
    PlanWellTagged(Classify(NormalizeStoreName(store.name)), store, day, isHoliday);
    FillProvenance(plan, roster);
    FillNames(plan, roster);
    forall s | s in Fill(plan, roster)
      ensures (s.emp in RosterNames(roster) || s.emp == Cerrado || s.emp == LoanedNatalia)
              && s.kind != Opening && s.kind != Closing
              && (s.kind == Standard ==> !isHoliday)
              && (s.kind == HolidayShift ==> isHoliday)
              && (s.kind == Holiday ==> s == ClosedShift)
              && (s.kind == Reinforcement ==> s.time in ReinforcementTimes)
    {
      var j :| 0 <= j < |plan| && s in FillSlot(plan[j], roster);
      assert WellTagged(plan[j], isHoliday);
    }
  }

  // ---------------------------------------------------------------- fixed-day cases

  /**
   * San Julián without Sunday hours, on a Sunday or a holiday: exactly the
   * closed sentinel, whatever the roster.
   */
  lemma SanJulianClosedSentinel(store: Store, day: Day, roster: seq<Employee>, holidays: seq<HolidayDate>)
    requires Classify(NormalizeStoreName(store.name)) == SanJulian
    requires Blank(store.openSunday)
    requires day.dayOfWeek == Sunday || IsHoliday(holidays, day.iso)
    ensures Schedule(store, day, roster, holidays) == [ClosedShift]
  {
    FillOne(Fixed(Cerrado, Cerrado, Holiday), roster);
  }

  /** A store whose normalised name holds none of the six tokens gets no shifts at all. */
  lemma UnclaimedStoreIsEmpty(store: Store, day: Day, roster: seq<Employee>, holidays: seq<HolidayDate>)
    requires forall k: StoreKind :: k != Generic ==> !HasToken(NormalizeStoreName(store.name), k)
    ensures Schedule(store, day, roster, holidays) == []
  {
  }

  /**
   * San Julián reads its times from the store's configuration: it is closed
   * on a Sunday or holiday exactly when the Sunday opening time is absent or
   * empty; otherwise the Sunday and Saturday ranges print the configured
   * values, an absent one as "undefined".
   */
  lemma SanJulianConfiguredHours(store: Store, day: Day, isHoliday: bool)
    ensures SanJulianClosed(store, day, isHoliday) <==>
              (day.dayOfWeek == Sunday || isHoliday) && (store.openSunday == None || store.openSunday == Some(""))
    ensures (day.dayOfWeek == Sunday || isHoliday) && store.openSunday == Some("") ==>
              SanJulianPlan(store, day, isHoliday) == [Fixed(Cerrado, Cerrado, Holiday)]
    ensures (day.dayOfWeek == Sunday || isHoliday) && store.openSunday.Some? ==>
              SanJulianHours(store, day, isHoliday) ==
              store.openSunday.value + " - " + (if store.closeSunday.Some? then store.closeSunday.value else "undefined")
    ensures day.dayOfWeek == Saturday && !isHoliday ==>
              SanJulianHours(store, day, isHoliday) ==
              (if store.openSaturday.Some? then store.openSaturday.value else "undefined") + " - " +
              (if store.closeSaturday.Some? then store.closeSaturday.value else "undefined")
  {
  }

  /** San Julián's plan holds a literal name exactly when the store is closed that day. */
  lemma SanJulianFixedOnlyWhenClosed(store: Store, day: Day, isHoliday: bool)
    ensures (exists j :: 0 <= j < |SanJulianPlan(store, day, isHoliday)| && SanJulianPlan(store, day, isHoliday)[j].Fixed?)
            <==> SanJulianClosed(store, day, isHoliday)
  {
    if SanJulianClosed(store, day, isHoliday) {
      assert SanJulianPlan(store, day, isHoliday)[0].Fixed?;
    }
  }

  /** San Julián on an ordinary Wednesday: Carmen alone on the weekday hours, or nobody. */
  lemma SanJulianWednesday(store: Store, day: Day, roster: seq<Employee>)
    requires day.dayOfWeek == Wednesday
    ensures Fill(SanJulianPlan(store, day, false), roster) ==
              match FindEmp(roster, "CARMEN")
              case Some(e) => [Shift(e.name, Range(store.openWeekday, store.closeWeekday), Standard)]
              case None => []
  {
    FillOne(Role(["CARMEN"], Range(store.openWeekday, store.closeWeekday), Standard), roster);
  }

  /**
   * Av Aragón on an ordinary Wednesday: exactly the loaned Natalia from San
   * Julián, whatever the roster.
   */
  lemma AvAragonWednesdayLoan(day: Day, roster: seq<Employee>)
    requires day.dayOfWeek == Wednesday
    ensures Fill(AvAragonPlan(day, false), roster) == [Shift(LoanedNatalia, "08:00 - 14:15", Standard)]
  {
    FillOne(Fixed(LoanedNatalia, "08:00 - 14:15", Standard), roster);
  }

  /** Sta Amalia plans Asun on every day except a Sunday that is not a holiday. */
  lemma StaAmaliaAsunSundayOff(day: Day, isHoliday: bool)
    ensures (exists j :: 0 <= j < |StaAmaliaPlan(day, isHoliday)| && StaAmaliaPlan(day, isHoliday)[j].parts == ["ASUN"])
            <==> day.dayOfWeek != Sunday || isHoliday
  {
    StaAmaliaPlanSteps(day, isHoliday);
    if day.dayOfWeek != Sunday || isHoliday {
      assert StaAmaliaPlan(day, isHoliday)[0].parts == ["ASUN"];
    } else {
      forall j | 0 <= j < |StaAmaliaPlan(day, isHoliday)| ensures StaAmaliaPlan(day, isHoliday)[j].parts != ["ASUN"] {
        assert ["ASUN"][0] != "BEA";
      }
    }
  }

  // ---------------------------------------------------------------- weekend rotations

  /** The stores whose main weekend and holiday shift rotates with week parity. */
  predicate RotatingMain(k: StoreKind) {
    k == SanJulian || k == Castralvo || k == AvAragon || k == Fuenfresca || k == SanJuan
  }

  /** Who holds the main weekend and holiday shift: the even-week holder, then the odd-week one. */
  function WeekendMain(k: StoreKind, even: bool): seq<string> {
    match k
    case SanJulian => if even then ["NATALIA"] else ["CARMEN"]
    case Castralvo => if even then ["ROSA"] else ["MAR"]
    case AvAragon => if even then ["JOSE"] else ["ESTHER"]
    case Fuenfresca => if even then ["MARI"] else ["YOLANDA"]
    case SanJuan => if even then ["ISABEL"] else AngelaParts
    case StaAmalia => ["ASUN"]
    case Generic => []
  }

  /** The stores with a weekend reinforcement that rotates with week parity. */
  predicate RotatingPartner(k: StoreKind) {
    k == Castralvo || k == StaAmalia || k == Fuenfresca
  }

  /** Who reinforces on weekends and holidays: the even-week holder, then the odd-week one. */
  function WeekendPartner(k: StoreKind, even: bool): seq<string> {
    match k
    case Castralvo => if even then ["ESTHER"] else ["LARA"]
    case StaAmalia => if even then ["CLARA"] else ImanParts
    case Fuenfresca => if even then ["PAOLA"] else ["JUDITH"]
    case _ => []
  }

  function WeekendPartnerTime(k: StoreKind): string {
    match k
    case Castralvo => "08:00 - 14:30"
    case StaAmalia => "09:15 - 14:15"
    case _ => "09:30 - 14:30"
  }

  /**
   * On a weekend day or a holiday (San Julián being open), the first slot of
   * a rotating store is its main role, held by the week's parity holder and
   * tagged 'holiday_shift' exactly on holidays.
   */
  lemma WeekendMainRotates(k: StoreKind, store: Store, day: Day, isHoliday: bool)
    requires RotatingMain(k) && WeekendOrHoliday(day, isHoliday)
    requires k == SanJulian ==> !SanJulianClosed(store, day, isHoliday)
    ensures |StorePlan(k, store, day, isHoliday)| > 0
    ensures StorePlan(k, store, day, isHoliday)[0].Role?
    ensures StorePlan(k, store, day, isHoliday)[0].parts == WeekendMain(k, IsEvenWeek(day))
    ensures StorePlan(k, store, day, isHoliday)[0].kind == MainKind(isHoliday)
  {
  }

  /** On a weekend day or a holiday, the rotating reinforcement is planned at its literal time. */
  lemma WeekendPartnerRotates(k: StoreKind, store: Store, day: Day, isHoliday: bool)
    requires RotatingPartner(k) && WeekendOrHoliday(day, isHoliday)
    ensures Role(WeekendPartner(k, IsEvenWeek(day)), WeekendPartnerTime(k), Reinforcement) in StorePlan(k, store, day, isHoliday)
  {
    if k == StaAmalia {
      StaAmaliaPlanSteps(day, isHoliday);
      var lead := if day.dayOfWeek != Sunday || isHoliday then [Role(["ASUN"], StaAmaliaHours(day, isHoliday), MainKind(isHoliday))] else [];
      assert StaAmaliaPlan(day, isHoliday)[|lead|] == Role(WeekendPartner(k, IsEvenWeek(day)), "09:15 - 14:15", Reinforcement);
    }
  }

  /** San Julián, open on a Sunday or a holiday: the parity holder, then Jorge reinforcing 09:30 - 14:30. */
  lemma SanJulianSundayReinforcement(store: Store, day: Day, isHoliday: bool)
    requires day.dayOfWeek == Sunday || isHoliday
    requires !SanJulianClosed(store, day, isHoliday)
    ensures SanJulianPlan(store, day, isHoliday) ==
              [Role(WeekendMain(SanJulian, IsEvenWeek(day)), Range(Render(store.openSunday), Render(store.closeSunday)), MainKind(isHoliday)),
               Role(["JORGE"], "09:30 - 14:30", Reinforcement)]
  {
  }

  /** The two holders of every rotation differ, so consecutive weeks of opposite parity swap them. */
  lemma RotationsAlternate(k: StoreKind)
    ensures RotatingMain(k) ==> WeekendMain(k, true) != WeekendMain(k, false)
    ensures RotatingPartner(k) ==> WeekendPartner(k, true) != WeekendPartner(k, false)
  {
    assert ["ROSA"][0] != ["MAR"][0];
  }

  // ---------------------------------------------------------------- Castralvo quirks

  /** Castralvo's main hours are "07:00 - 15:00" on every kind of day. */
  lemma CastralvoHoursConstant(day: Day, isHoliday: bool)
    ensures CastralvoHours(day, isHoliday) == "07:00 - 15:00"
  {
  }

  /**
   * On Castralvo's ordinary weekdays both parity branches agree: the main
   * shift goes to Rosa on even-numbered days and to Mar on odd-numbered ones,
   * whatever the week.
   */
  lemma CastralvoWeekdayIgnoresParity(day1: Day, day2: Day, isHoliday: bool)
    requires day1.dayOfWeek == day2.dayOfWeek && !WeekendOrHoliday(day1, isHoliday)
    ensures CastralvoPlan(day1, isHoliday) == CastralvoPlan(day2, isHoliday)
    ensures CastralvoPlan(day1, isHoliday)[1].parts == if day1.dayOfWeek % 2 == 0 then ["ROSA"] else ["MAR"]
  {
  }

  // ---------------------------------------------------------------- configuration

  /** Only San Julián reads the store's configured opening hours; every other plan ignores them. */
  lemma OnlySanJulianReadsConfig(k: StoreKind, store1: Store, store2: Store, day: Day, isHoliday: bool)
    requires k != SanJulian
    ensures StorePlan(k, store1, day, isHoliday) == StorePlan(k, store2, day, isHoliday)
  {
  }

  // ---------------------------------------------------------------- look-up

  /** Upper-casing twice is upper-casing once. */
  lemma UpperIdempotent(s: string)
    ensures Upper(Upper(s)) == Upper(s)
  {
    assert forall i :: 0 <= i < |s| ==> Upper(Upper(s))[i] == Upper(s)[i];
  }

  /** The fragment's case does not matter: looking up a fragment or its upper-case form finds the same employee. */
  lemma {:induction false} FindEmpIgnoresCase(roster: seq<Employee>, part: string)
    ensures FindEmp(roster, Upper(part)) == FindEmp(roster, part)
  {
    UpperIdempotent(part);
    if roster != [] {
      FindEmpIgnoresCase(roster[1..], part);
    }
  }

  /**
   * The roster order decides between several candidates: with Mari listed
   * before Mar, the fragment "MAR" finds Mari.
   */
  lemma FindEmpEarlierWins(mari: Employee, mar: Employee)
    requires mari.name == "Mari" && mar.name == "Mar"
    ensures FindEmp([mari, mar], "MAR") == Some(mari)
  {
    assert Upper("MAR") == "MAR";
    assert Upper("Mari") == "MARI";
    assert OccursAt("MARI", "MAR", 0);
  }

  // ---------------------------------------------------------------- store names

  /** What stripping makes of one character: nothing for a mark, else its base letter or itself. */
  function StripOne(c: char): string {
    if IsCombiningMark(c) then []
    else match BaseLetter(c)
      case Some(l) => [l]
      case None => [c]
  }

  /** Stripping a non-empty string handles its first character, then the rest. */
  lemma StripMarksCons(s: string)
    requires s != []
    ensures StripMarks(s) == StripOne(s[0]) + StripMarks(s[1..])
  {
    if IsCombiningMark(s[0]) {
      assert StripOne(s[0]) + StripMarks(s[1..]) == StripMarks(s[1..]);
    }
  }

  /** Concatenation is associative. */
  lemma AppendAssoc(x: string, y: string, z: string)
    ensures x + (y + z) == (x + y) + z
  {
  }

  /** Stripping works character by character, so it distributes over concatenation. */
  lemma {:induction false} StripMarksAppend(a: string, b: string)
    ensures StripMarks(a + b) == StripMarks(a) + StripMarks(b)
  {
    if a == [] {
      assert a + b == b;
    } else {
      var t := a[1..];
      assert (a + b)[0] == a[0] && (a + b)[1..] == t + b;
      StripMarksCons(a);
      StripMarksCons(a + b);
      StripMarksAppend(t, b);
      AppendAssoc(StripOne(a[0]), StripMarks(t), StripMarks(b));
    }
  }

  /** Text without marks or decomposable letters is left as it is. */
  lemma {:induction false} StripMarksPlain(s: string)
    requires forall i :: 0 <= i < |s| ==> !IsCombiningMark(s[i]) && BaseLetter(s[i]).None?
    ensures StripMarks(s) == s
  {
    if s != [] {
      StripMarksPlain(s[1..]);
      assert [s[0]] + s[1..] == s;
    }
  }

  /**
   * A precomposed accented capital, its base letter alone, and its base
   * letter followed by a combining mark all give the same key.
   */
  lemma AccentsFold(a: string, c: char, m: char, b: string)
    requires BaseLetter(c).Some? && IsCombiningMark(m)
    ensures StripMarks(a + [c] + b) == StripMarks(a + [BaseLetter(c).value] + b)
    ensures StripMarks(a + [BaseLetter(c).value, m] + b) == StripMarks(a + [BaseLetter(c).value] + b)
  {
    var x := BaseLetter(c).value;
    StripMarksAppend(a + [c], b);
    StripMarksAppend(a, [c]);
    StripMarksAppend(a + [x], b);
    StripMarksAppend(a, [x]);
    StripMarksAppend(a + [x, m], b);
    StripMarksAppend(a, [x, m]);
    assert StripMarks([c]) == [x];
    assert StripMarks([x]) == [x] by {
      assert [x][1..] == [];
    }
    assert [x, m][1..] == [m];
    assert [m][1..] == [];
    assert StripMarks([x, m]) == [x];
  }

  /**
   * `includes` as a relation: the empty string and the string itself are
   * always found, a found fragment is no longer than the text, and it is
   * still found once text is added on either side.
   */
  lemma IncludesBasics(s: string, sub: string, a: string, b: string)
    ensures Contains(s, []) && Contains(s, s)
    ensures Contains(s, sub) ==> |sub| <= |s| && Contains(a + s + b, sub)
  {
    assert OccursAt(s, [], 0);
    assert OccursAt(s, s, 0);
    if Contains(s, sub) {
      var i :| 0 <= i <= |s| - |sub| && OccursAt(s, sub, i);
      assert (a + s + b)[|a| + i..|a| + i + |sub|] == s[i..i + |sub|];
      assert OccursAt(a + s + b, sub, |a| + i);
    }
  }

  /** `sub` does not occur in `s` when every candidate position differs within its first two characters. */
  lemma NotContainsByPrefix(s: string, sub: string)
    requires |sub| >= 2
    requires forall i :: 0 <= i <= |s| - |sub| ==> s[i] != sub[0] || s[i + 1] != sub[1]
    ensures !Contains(s, sub)
  {
    forall i | 0 <= i <= |s| - |sub| ensures !OccursAt(s, sub, i) {
      assert s[i..i + |sub|][0] == s[i] && s[i..i + |sub|][1] == s[i + 1];
    }
  }

  /**
   * The keys of the stores' names select their own rule sets, "SAN JUAN"
   * included; an accented "ARAGÓN" would miss its token without the
   * stripping.
   */
  lemma ClassifyStoreKeys()
    ensures Classify("SAN JULIAN") == SanJulian
    ensures Classify("SAN JUAN") == SanJuan
    ensures Classify("AV. ARAGON") == AvAragon
    ensures !Contains("ARAG\U{00D3}N", "ARAGON")
  {
    assert OccursAt("SAN JULIAN", "JULIAN", 4);
    NotContainsByPrefix("SAN JUAN", "JULIAN");
    NotContainsByPrefix("SAN JUAN", "ARAGON");
    NotContainsByPrefix("SAN JUAN", "AMALIA");
    assert OccursAt("SAN JUAN", "JUAN", 4);
    NotContainsByPrefix("AV. ARAGON", "JULIAN");
    NotContainsByPrefix("AV. ARAGON", "CASTRALVO");
    assert OccursAt("AV. ARAGON", "ARAGON", 4);
    assert "ARAG\U{00D3}N"[0..6][4] != "ARAGON"[4];
  }

  // ---------------------------------------------------------------- calendar

  /** Seven days later the remainder by 7 is the same and the quotient by 7 is one more. */
  lemma SevenDaysLater(x: int)
    ensures (x + 7) % 7 == x % 7 && (x + 7) / 7 == x / 7 + 1
  {
  }

  /**
   * One week later, away from the turn of the year (from 4 January up to the
   * 351st day), the weekday is the same and the week number is one more, so
   * the week's parity flips.
   */
  lemma NextWeekFlipsParity(d: CalendarDate)
    requires 4 <= d.ordinal <= 351
    ensures Weekday(CalendarDate(d.year, d.ordinal + 7)) == Weekday(d)
    ensures IsoWeek(CalendarDate(d.year, d.ordinal + 7)) == IsoWeek(d) + 1
    ensures IsoWeek(CalendarDate(d.year, d.ordinal + 7)) % 2 != IsoWeek(d) % 2
  {
    var e := CalendarDate(d.year, d.ordinal + 7);
    assert ValidDate(d) && ValidDate(e);
    SevenDaysLater(DayNumber(d));
    assert DayNumber(e) == DayNumber(d) + 7;
    assert IsoWeekday(e) == IsoWeekday(d);
    SevenDaysLater(d.ordinal - IsoWeekday(d) + 10);
    assert RawWeek(e) == RawWeek(d) + 1;
  }

  /**
   * The arithmetic behind a Thursday's week: with `before` days ahead of the
   * year and the Thursday at ordinal `ordinal`, its raw week is at least 1,
   * and it exceeds 52 only in a year whose 1 January is a Thursday, or a
   * Wednesday in a leap year.
   */
  lemma ThursdayWeekBounds(before: int, ordinal: int, leap: bool)
    requires 1 <= ordinal <= (if leap then 366 else 365)
    requires (before + ordinal) % 7 == 4
    ensures 1 <= (ordinal + 6) / 7
    ensures (ordinal + 6) / 7 <= 52 || (before + 1) % 7 == 4 || (leap && (before + 1) % 7 == 3)
    ensures (ordinal + 6) / 7 <= 53
  {
    if ordinal >= 365 {
      if ordinal == 365 {
        assert before + 1 == before + ordinal - 7 * 52;
      } else {
        assert before + 2 == before + ordinal - 7 * 52;
      }
    }
  }

  /** A Thursday always lies in a week of its own year: its week number needs no wrap-around. */
  lemma ThursdayInOwnYear(d: CalendarDate)
    requires ValidDate(d) && Weekday(d) == 4
    ensures IsoWeek(d) == RawWeek(d)
  {
    assert IsoWeekday(d) == 4;
    assert RawWeek(d) == (d.ordinal + 6) / 7;
    ThursdayWeekBounds(DaysBeforeYear(d.year), d.ordinal, IsLeapYear(d.year));
    assert Weekday(CalendarDate(d.year, 1)) == (DaysBeforeYear(d.year) + 1) % 7;
  }

  /**
   * The arithmetic behind 28 December: with `before` days ahead of a year of
   * `n` days, the raw week of its day `n - 3` is 53 exactly when 1 January is
   * a Thursday, or a Wednesday in a leap year.
   */
  lemma Dec28WeekArith(before: int, leap: bool)
    ensures var n := if leap then 366 else 365;
            var w := (before + n - 3) % 7;
            var jan1 := (before + 1) % 7;
            (n + 7 - (if w == 0 then 7 else w)) / 7 == (if jan1 == 4 || (leap && jan1 == 3) then 53 else 52)
  {
    var n := if leap then 366 else 365;
    var q, r := (before + 1) / 7, (before + 1) % 7;
    assert before + n - 3 == 7 * (q + 51) + (r + n - 361);
    assert (before + n - 3) % 7 == (r + n - 361) % 7;
  }

  /**
   * The ends of an ISO year: 4 January always lies in week 1, and 28 December
   * always lies in the year's last week, so `WeeksInYear` is exactly the week
   * number of 28 December.
   */
  lemma IsoWeekAnchors(y: int)
    ensures IsoWeek(CalendarDate(y, 4)) == 1
    ensures IsoWeek(CalendarDate(y, DaysInYear(y) - 3)) == WeeksInYear(y)
  {
    var d := CalendarDate(y, DaysInYear(y) - 3);
    assert RawWeek(CalendarDate(y, 4)) == 1;
    Dec28WeekArith(DaysBeforeYear(y), IsLeapYear(y));
    assert RawWeek(d) == WeeksInYear(y);
  }

  /** The date after `d`: the next ordinal, or 1 January of the next year. */
  function NextDate(d: CalendarDate): CalendarDate {
    if d.ordinal < DaysInYear(d.year) then CalendarDate(d.year, d.ordinal + 1)
    else CalendarDate(d.year + 1, 1)
  }

  /** The day count of 1 January of the year after `y` follows the last day of `y`. */
  lemma NewYearFollows(y: int)
    ensures DaysBeforeYear(y + 1) == DaysBeforeYear(y) + DaysInYear(y)
  {
    QuotientStep4(y);
    QuotientStep100(y);
    QuotientStep400(y);
  }

  /** Going from `y - 1` to `y`, the quotient by 4 grows exactly when `y` is a multiple of 4. */
  lemma QuotientStep4(y: int)
    ensures y / 4 == (y - 1) / 4 + (if y % 4 == 0 then 1 else 0)
  {
    var q, r := (y - 1) / 4, (y - 1) % 4;
    assert y == 4 * q + r + 1;
  }

  /** Going from `y - 1` to `y`, the quotient by 100 grows exactly when `y` is a multiple of 100. */
  lemma QuotientStep100(y: int)
    ensures y / 100 == (y - 1) / 100 + (if y % 100 == 0 then 1 else 0)
  {
    var q, r := (y - 1) / 100, (y - 1) % 100;
    assert y == 100 * q + r + 1;
  }

  /** Going from `y - 1` to `y`, the quotient by 400 grows exactly when `y` is a multiple of 400. */
  lemma QuotientStep400(y: int)
    ensures y / 400 == (y - 1) / 400 + (if y % 400 == 0 then 1 else 0)
  {
    var q, r := (y - 1) / 400, (y - 1) % 400;
    assert y == 400 * q + r + 1;
  }

  /** The remainder by 7 of the next number is one more, wrapping 6 to 0. */
  lemma NextRemainder(x: int)
    ensures (x + 1) % 7 == (x % 7 + 1) % 7
  {
    assert x == 7 * (x / 7) + x % 7;
    assert x + 1 == 7 * (x / 7) + (x % 7 + 1);
  }

  /**
   * Consecutive dates have consecutive weekdays, across the turn of the year
   * too; anchored at a known Monday (1 January 2024, in `Week53Boundary`),
   * this makes `Weekday` the calendar's day of the week.
   */
  lemma WeekdayAdvances(d: CalendarDate)
    requires ValidDate(d)
    ensures ValidDate(NextDate(d))
    ensures Weekday(NextDate(d)) == (Weekday(d) + 1) % 7
  {
    if d.ordinal == DaysInYear(d.year) {
      NewYearFollows(d.year);
    }
    assert DayNumber(NextDate(d)) == DayNumber(d) + 1;
    NextRemainder(DayNumber(d));
  }

  /** The parity the rotations read is that of the date's ISO week number. */
  lemma EvenWeekOfDate(d: CalendarDate, iso: string)
    requires ValidDate(d)
    ensures DayFor(d, iso).dayOfWeek == Weekday(d)
    ensures IsEvenWeek(DayFor(d, iso)) <==> IsoWeek(d) % 2 == 0
  {
  }

  /** 29 December 2025 is a Monday in week 1 of 2026, as is 1 January 2026 (a Thursday). */
  lemma YearBoundaryWeek()
    ensures Weekday(CalendarDate(2025, 363)) == 1 && IsoWeek(CalendarDate(2025, 363)) == 1
    ensures Weekday(CalendarDate(2026, 1)) == 4 && IsoWeek(CalendarDate(2026, 1)) == 1
  {
    assert DaysBeforeYear(2025) == 739251 && DaysBeforeYear(2026) == 739616;
    assert Weekday(CalendarDate(2025, 1)) == 3 && WeeksInYear(2025) == 52;
  }

  /**
   * 1 January 2024 is a Monday. 2026 has 53 ISO weeks: the Saturdays 2 and 9
   * January 2027 fall in weeks 53 and 1, both odd.
   */
  lemma Week53Boundary()
    ensures Weekday(CalendarDate(2024, 1)) == 1
    ensures WeeksInYear(2026) == 53
    ensures IsoWeek(CalendarDate(2027, 2)) == 53 && IsoWeek(CalendarDate(2027, 9)) == 1
    ensures Weekday(CalendarDate(2027, 2)) == Saturday && Weekday(CalendarDate(2027, 9)) == Saturday
  {
  }

  /**
   * Across a 53-week year the rotation does not alternate: every store plans
   * the same rota on the Saturdays 2 and 9 January 2027, so the odd-week
   * weekend holders work two weekends in a row.
   */
  lemma Week53RepeatsWeekend(k: StoreKind, store: Store)
    ensures StorePlan(k, store, DayFor(CalendarDate(2027, 2), "2027-01-02"), false)
         == StorePlan(k, store, DayFor(CalendarDate(2027, 9), "2027-01-09"), false)
  {
    Week53Boundary();
    var d1 := DayFor(CalendarDate(2027, 2), "2027-01-02");
    var d2 := DayFor(CalendarDate(2027, 9), "2027-01-09");
    assert d1.dayOfWeek == d2.dayOfWeek && IsEvenWeek(d1) == IsEvenWeek(d2);
  }
}
