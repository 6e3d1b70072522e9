/**
 * The helpers of the shift engine (lib/logic.ts): week parity, the holiday
 * test and the employee look-up by name fragment.
 */
module Lookup {

  import opened Wrappers
  import opened Text
  import opened Types

  /** Week parity drives every alternating rota: even ISO weeks against odd ones. */
  predicate IsEvenWeek(day: Day) {
    day.isoWeek % 2 == 0
  }

  /** The day is a holiday when some calendar entry carries its yyyy-MM-dd rendering. */
  function IsHoliday(holidays: seq<HolidayDate>, iso: string): (b: bool)
    ensures b <==> exists i :: 0 <= i < |holidays| && holidays[i].date == iso
  {
    if holidays == [] then false
    else if holidays[0].date == iso then true
    else
      var b := IsHoliday(holidays[1..], iso);
      assert b ==> exists i :: 0 <= i < |holidays| && holidays[i].date == iso by {
        if b {
          var j :| 0 <= j < |holidays[1..]| && holidays[1..][j].date == iso;
          assert holidays[j + 1].date == iso;
        }
      }
      b
  }

  /** The employee's upper-cased name contains the upper-cased fragment. */
  predicate Matches(e: Employee, part: string) {
    Contains(Upper(e.name), Upper(part))
  }

  /**
   * `findEmp`: the first employee of the roster whose name contains `part`,
   * compared in upper case; None when no employee qualifies.
   */
  function FindEmp(roster: seq<Employee>, part: string): (r: Option<Employee>)
    ensures r.Some? ==> r.value in roster && Matches(r.value, part)
  {
    if roster == [] then None
    else if Matches(roster[0], part) then Some(roster[0])
    else FindEmp(roster[1..], part)
  }

  /** `findEmp` returns the earliest qualifying roster entry, and nothing only when none qualifies. */
  lemma {:induction false} FindEmpFirstMatch(roster: seq<Employee>, part: string)
    ensures FindEmp(roster, part).Some? ==>
              exists i :: 0 <= i < |roster| && roster[i] == FindEmp(roster, part).value && Matches(roster[i], part)
                          && forall j :: 0 <= j < i ==> !Matches(roster[j], part)
    ensures FindEmp(roster, part).None? <==> forall i :: 0 <= i < |roster| ==> !Matches(roster[i], part)
  {
    if roster != [] && !Matches(roster[0], part) {
      var tail := roster[1..];
      FindEmpFirstMatch(tail, part);
      var r := FindEmp(tail, part);
      if r.Some? {
        var k :| 0 <= k < |tail| && tail[k] == r.value && Matches(tail[k], part)
                 && forall j :: 0 <= j < k ==> !Matches(tail[j], part);
        assert roster[k + 1] == tail[k];
        forall j | 0 <= j < k + 1 ensures !Matches(roster[j], part) {
          if j > 0 { assert roster[j] == tail[j - 1]; }
        }
      } else {
        forall i | 0 <= i < |roster| ensures !Matches(roster[i], part) {
          if i > 0 { assert roster[i] == tail[i - 1]; }
        }
      }
    }
  }

  /**
   * `findEmp(roster, t0) || findEmp(roster, t1) || ...`: the first fragment
   * that finds somebody decides.
   */
  function FindAny(roster: seq<Employee>, parts: seq<string>): (r: Option<Employee>)
    ensures r.Some? ==> r.value in roster
  {
    if parts == [] then None
    else if |parts| == 1 then FindEmp(roster, parts[0])
    else
      match FindEmp(roster, parts[0])
      case Some(e) => Some(e)
      case None => FindAny(roster, parts[1..])
  }

  /** The first fragment with a match decides; nothing is found only when no fragment matches. */
  lemma {:induction false} FindAnyFirstFragment(roster: seq<Employee>, parts: seq<string>)
    ensures FindAny(roster, parts).Some? ==>
              exists i :: 0 <= i < |parts| && FindAny(roster, parts) == FindEmp(roster, parts[i])
                          && forall j :: 0 <= j < i ==> FindEmp(roster, parts[j]).None?
    ensures FindAny(roster, parts).None? <==> forall i :: 0 <= i < |parts| ==> FindEmp(roster, parts[i]).None?
  {
    if parts != [] && FindEmp(roster, parts[0]).None? {
      var tail := parts[1..];
      FindAnyFirstFragment(roster, tail);
      if FindAny(roster, tail).Some? {
        var k :| 0 <= k < |tail| && FindAny(roster, tail) == FindEmp(roster, tail[k])
                 && forall j :: 0 <= j < k ==> FindEmp(roster, tail[j]).None?;
        assert parts[k + 1] == tail[k];
        forall j | 0 <= j < k + 1 ensures FindEmp(roster, parts[j]).None? {
          if j > 0 { assert parts[j] == tail[j - 1]; }
        }
      } else {
        forall i | 0 <= i < |parts| ensures FindEmp(roster, parts[i]).None? {
          if i > 0 { assert parts[i] == tail[i - 1]; }
        }
      }
    }
  }
}
