# Shift-rule engine of horarios-sanz, in Dafny

horarios-sanz plans the daily shifts of a small chain of shops. Its
decision logic sits in `lib/logic.ts`. For a store, a date, the store's
roster and the holiday calendar, `getStoreShifts` works out the day of the
week, the ISO week parity and whether the date is a holiday. It then hands
the day to the rule set of the store. The rule set is chosen by a token in
the store's upper-cased, accent-stripped name (JULIAN, CASTRALVO, ARAGON,
AMALIA, FUENFRESCA, JUAN, tried in that order), with an empty fallback.
Each rule set looks employees up by name fragment (`findEmp`) and pushes
`standard`, `holiday_shift`, `holiday` and `reinforcement` shifts under
nested day-of-week, holiday and parity conditions.

The model has six modules:

- `types.dfy`: `Store`, `Employee`, `HolidayDate`, `Shift`, `ShiftType` and
  `Day`. A `Day` is the three facts the engine reads off a date: its
  `yyyy-MM-dd` rendering, its day of week (0 = Sunday) and its ISO week
  number.
- `text.dfy`: `toUpperCase`, `includes`, and the name normalisation of
  `lib/logic.ts:32`.
- `calendar.dfy`: the day of week and the ISO 8601 week number (ISO
  8601:2004 section 4.1.4) of a proleptic Gregorian date, given as year and
  ordinal day.
- `lookup.dfy`: `isEvenWeek`, the holiday test and `findEmp`. `FindAny`
  models `findEmp(a) || findEmp(b)`.
- `rota.dfy`: the reference definitions. For every store it has a
  roster-independent plan: the slots of the day, in output order. A slot
  is a role, filled by a name look-up, or a fixed entry with a literal
  name. `Fill` resolves a plan against a roster and drops a role whose
  look-up fails. `Classify` is the token dispatch. `Schedule` is what
  `getStoreShifts` must return.
- `rules.dfy`: the engine as it is written. Each store rule is a method
  that starts from an empty list, appends shifts under the same conditions
  and early returns as the source, and is proved to return exactly
  `Fill(<store>Plan(...), roster)`.
  - `Push` is the source's `if (emp) shifts.push(...)`.
  - The `Fill*` lemmas and `StaAmaliaPlanSteps` relate each append to one
    slot of the plan.
  - `RunRules` is the chain of `includes` tests of `getStoreShifts`. It is
    split out so that it reasons about the key as a plain string.
- `properties.dfy`: what the engine promises, proved over the plans and
  the schedule.

Two details of `lib/logic.ts` shape the look-up and the San Julián rota:

- `findEmp` (`lib/logic.ts:19`) matches by substring only. It takes the
  first roster entry whose upper-cased name contains the upper-cased
  fragment, with no preference for an exact name.
- San Julián's only reinforcement is Jorge at "09:30 - 14:30", on Sundays
  and holidays (`lib/logic.ts:70-71`). An ordinary Wednesday gives Carmen
  alone (`lib/logic.ts:89-92`).

Two behaviours of the code are proved as they stand:

- Castralvo's weekday main shift ignores week parity, because both parity
  branches of `lib/logic.ts:200-215` compute the same thing.
- Across a 53-week ISO year, week 53 and week 1 are both odd. So the
  odd-week weekend holders work two weekends in a row, for example on the
  Saturdays 2 and 9 January 2027.

## Model

| member | source | states |
|---|---|---|
| Text.UpperChar | lib/logic.ts:19 | the upper-case form of a character has no lower-case form left; a lower-case ASCII letter, or one of U+00E0..U+00FE other than U+00F7, moves down by 0x20 to its capital; any other character is kept |
| Text.Upper | lib/logic.ts:19 | `toUpperCase` keeps the length and maps every character to its upper-case form |
| Text.StripMarks | lib/logic.ts:32 | NFD followed by removal of U+0300..U+036F leaves no combining mark and no decomposable letter, never lengthens the text, and keeps only input characters or base capitals |
| Text.NormalizeStoreName | lib/logic.ts:32 | the dispatch key has no lower-case ASCII letter, no combining mark and no accented capital, and is no longer than the name |
| Lookup.IsHoliday | lib/logic.ts:27 | the day is a holiday exactly when some calendar entry's date equals its `yyyy-MM-dd` rendering |
| Lookup.FindEmp | lib/logic.ts:18-22 | a found employee is an entry of the roster whose upper-cased name contains the upper-cased fragment |
| Lookup.FindAny | lib/logic.ts:286 | a chained look-up that finds somebody returns an entry of the roster |
| Lookup.FindEmpFirstMatch | lib/logic.ts:18-22 | `findEmp` returns the earliest roster entry whose upper-cased name contains the upper-cased fragment, and nothing exactly when no entry does |
| Lookup.FindAnyFirstFragment | lib/logic.ts:286 | the chained look-up of two spellings returns the look-up of the first fragment that finds somebody, and nothing exactly when every fragment fails |
| Calendar.IsoWeekday | lib/logic.ts:28 | the ISO weekday lies in 1..7 and agrees with `getDay` modulo 7 |
| Calendar.WeeksInYear | lib/logic.ts:14 | an ISO year has 52 or 53 weeks; `Properties.IsoWeekAnchors` pins down which |
| Rota.Classify | lib/logic.ts:32-42 | a chosen rule set's token occurs in the key; the fallback is chosen exactly when no token occurs |
| Rota.ClassifyFirst | lib/logic.ts:34-39 | tokens are tried in the order JULIAN, CASTRALVO, ARAGON, AMALIA, FUENFRESCA, JUAN: no rule set whose token occurs ranks before the chosen one |
| StoreRules.Push | lib/logic.ts:68 | a shift for the looked-up employee is appended exactly when the look-up found somebody |
| StoreRules.SanJulianShifts | lib/logic.ts:47-131 | the shifts are exactly San Julián's plan filled from the roster |
| StoreRules.CastralvoShifts | lib/logic.ts:133-218 | the shifts are exactly Castralvo's plan filled from the roster |
| StoreRules.AvAragonShifts | lib/logic.ts:220-277 | the shifts are exactly Av Aragón's plan filled from the roster |
| StoreRules.StaAmaliaShifts | lib/logic.ts:279-322 | the shifts are exactly Sta Amalia's plan filled from the roster |
| StoreRules.FuenfrescaShifts | lib/logic.ts:324-426 | the shifts are exactly Fuenfresca's plan filled from the roster |
| StoreRules.SanJuanShifts | lib/logic.ts:428-481 | the shifts are exactly San Juan's plan filled from the roster |
| StoreRules.GenericShifts | lib/logic.ts:483-486 | the fallback yields the filled empty plan: no shifts |
| StoreRules.RunRules | lib/logic.ts:34-42 | the first rule set whose token the key contains, or the fallback, produces the day's shifts |
| StoreRules.GetStoreShifts | lib/logic.ts:25-43 | the result is the schedule: the plan of the store's classified rule set, for the day's holiday status, filled from the roster |
| Properties.FillProvenance | lib/logic.ts:68-71 | a shift is in the result exactly when some slot of the plan yields it |
| Properties.FillNames | lib/logic.ts:225-232 | every shift names a roster employee or copies a fixed slot of the plan |
| Properties.FillSkipsVacantRole | lib/logic.ts:68-71 | a role whose look-up fails adds nothing, and nobody else takes its place |
| Properties.FillLength | lib/logic.ts:150-158 | at most one shift per slot, and exactly one per slot exactly when every role's look-up succeeds |
| Properties.PlanWellTagged | lib/logic.ts:9 | every planned slot keeps the tag discipline: `standard` only on non-holidays, `holiday_shift` only on holidays, `holiday` only for the closed sentinel, `reinforcement` only at a literal time, never `opening` or `closing` |
| Properties.ScheduleShifts | lib/logic.ts:225-232 | every emitted shift names a roster employee, "CERRADO" or "NATALIA (San Julián)", and its tag and time follow the tag discipline for the day's holiday status |
| Properties.SanJulianClosedSentinel | lib/logic.ts:61-62 | San Julián without Sunday hours, on a Sunday or holiday, yields exactly `[CERRADO, CERRADO, holiday]`, whatever the roster |
| Properties.SanJulianConfiguredHours | lib/logic.ts:57-61 | San Julián is closed on a Sunday or holiday exactly when the Sunday opening time is absent or empty; otherwise the Sunday and Saturday times print the configured values, an absent one as "undefined" |
| Properties.SanJulianFixedOnlyWhenClosed | lib/logic.ts:61-62 | San Julián's plan holds a literal entry exactly when the store is closed that day |
| Properties.UnclaimedStoreIsEmpty | lib/logic.ts:41-42 | a store whose key holds none of the six tokens gets no shifts |
| Properties.SanJulianWednesday | lib/logic.ts:89-92 | San Julián's plan for an ordinary Wednesday, filled from any roster, is Carmen alone on the weekday hours, or nothing if Carmen is not found |
| Properties.AvAragonWednesdayLoan | lib/logic.ts:228-234 | Av Aragón's plan for an ordinary Wednesday, filled from any roster, is exactly `[NATALIA (San Julián), 08:00 - 14:15, standard]` |
| Properties.StaAmaliaAsunSundayOff | lib/logic.ts:295-297 | Sta Amalia plans Asun exactly on the days that are not a non-holiday Sunday |
| Properties.WeekendMainRotates | lib/logic.ts:65-79 | on weekends and holidays the first slot of San Julián, Castralvo, Av Aragón, Fuenfresca and San Juan is the week's parity holder (Natalia/Carmen, Rosa/Mar, M Jose/Esther, Mari/Yolanda, Isabel/Ángela), tagged `holiday_shift` exactly on holidays |
| Properties.WeekendPartnerRotates | lib/logic.ts:149-158 | on weekends and holidays Castralvo, Sta Amalia and Fuenfresca plan their parity reinforcement (Esther/Lara, Clara/Imán, Paola/Judith) at its literal time |
| Properties.SanJulianSundayReinforcement | lib/logic.ts:65-73 | an open San Julián on a Sunday or holiday plans the parity holder on the Sunday hours, then Jorge reinforcing at "09:30 - 14:30" |
| Properties.RotationsAlternate | lib/logic.ts:346-351 | the even-week and odd-week holders of every rotation differ |
| Properties.CastralvoHoursConstant | lib/logic.ts:142 | Castralvo's main time is "07:00 - 15:00" on every kind of day |
| Properties.CastralvoWeekdayIgnoresParity | lib/logic.ts:200-215 | on ordinary weekdays Castralvo's plan is the same in even and odd weeks: Rosa on even-numbered days, Mar on odd-numbered ones |
| Properties.OnlySanJulianReadsConfig | lib/logic.ts:57-59 | every rule set except San Julián ignores the store's configured hours |
| Properties.UpperIdempotent | lib/logic.ts:19 | upper-casing twice is upper-casing once |
| Properties.FindEmpIgnoresCase | lib/logic.ts:19 | looking up a fragment or its upper-case form finds the same employee |
| Properties.FindEmpEarlierWins | lib/logic.ts:136 | with "Mari" listed before "Mar", the fragment "MAR" finds Mari |
| Properties.StripMarksAppend | lib/logic.ts:32 | stripping distributes over concatenation |
| Properties.StripMarksPlain | lib/logic.ts:32 | text without marks or accented capitals is left unchanged |
| Properties.AccentsFold | lib/logic.ts:32 | a precomposed accented capital, its base letter, and the base letter followed by a combining mark all give the same key |
| Properties.IncludesBasics | lib/logic.ts:34-39 | `includes` finds the empty string and the text itself; a found fragment is no longer than the text and is still found with text added on either side |
| Properties.ClassifyStoreKeys | lib/logic.ts:32-39 | "SAN JULIAN", "SAN JUAN" and "AV. ARAGON" select their own rule sets; "ARAGÓN" with its accent would not contain ARAGON |
| Properties.IsoWeekAnchors | lib/logic.ts:14 | `getISOWeek` puts 4 January of every year in week 1, and 28 December in the year's last week, whose number is `WeeksInYear` |
| Properties.WeekdayAdvances | lib/logic.ts:28 | `getDay` of the next date, across the turn of the year too, is one more modulo 7 |
| Properties.EvenWeekOfDate | lib/logic.ts:13-15 | `isEvenWeek` of a date holds exactly when the date's ISO week number is even, and the engine's day of week is the date's weekday |
| Properties.NextWeekFlipsParity | lib/logic.ts:13-15 | for a day between 4 January and the 351st day of its year, the day one week later has the same weekday and the next week number, so `isEvenWeek` flips |
| Properties.ThursdayInOwnYear | lib/logic.ts:14 | a Thursday's ISO week needs no wrap-around into the neighbouring year |
| Properties.YearBoundaryWeek | lib/logic.ts:14 | 29 December 2025 (a Monday) and 1 January 2026 (a Thursday) both lie in week 1 |
| Properties.Week53Boundary | lib/logic.ts:14 | 1 January 2024 is a Monday; 2026 has 53 weeks; the Saturdays 2 and 9 January 2027 lie in weeks 53 and 1 |
| Properties.Week53RepeatsWeekend | lib/logic.ts:13-15 | every store plans the same rota on the Saturdays 2 and 9 January 2027 |

## Left out

- Date library calls (`format`, `getDay`, `getISOWeek`): the model takes the `yyyy-MM-dd` rendering, the day of week and the ISO week as a `Day`. `calendar.dfy` specifies the latter two for a year and ordinal day. Converting a JavaScript `Date` in a time zone is not modelled.
- `toUpperCase` is modelled for ASCII and for U+00E0..U+00FE other than U+00F7, the letters whose capital is 0x20 lower. Other scripts are not part of this model, and neither are the three Latin-1 lower-case letters whose capital lies elsewhere: "ß" (U+00DF) becomes "SS", "ÿ" (U+00FF) becomes "Ÿ" (U+0178) and "µ" (U+00B5) becomes "Μ" (U+039C) in `lib/logic.ts:19` and `lib/logic.ts:32`, while the model leaves all three unchanged. A store name holding "ÿ" therefore keys differently: the code's key has "Y", the model's keeps "ÿ".
- NFD is modelled for the Latin-1 precomposed capitals and the combining marks U+0300..U+036F. Other decompositions are not part of this model.
- `console.log` diagnostics (`lib/logic.ts:20`, `lib/logic.ts:26`) have no effect on the result and are dropped.
- An absent Saturday or Sunday time renders as "undefined", as the optional fields of `lib/types.ts` would. A database NULL, which would render as "null", is not modelled.
- `app/actions.ts` imports a `findSubstitutes` from `lib/logic.ts`, which does not define one. No substitute finder is part of this model.
- Persistence (`lib/db.ts`, `lib/data.ts`, `lib/holidays.ts`), the HTTP route, the UI components and pages, and the seed, inspection and report scripts are not part of this model.
- Employee ids, store ids, weekly hours and rule texts are carried in the records, but the engine never reads them.
