# Scheduled overrides of the runner autoscaler

This project models the evaluator behind the autoscaler's scheduled overrides,
`CalculateActiveAndUpcomingRecurringPeriods`, and proves properties of it.

**Inputs.** The evaluator takes:
- an instant `now`;
- an override window `[start, end)`;
- a frequency: `""` for a one-time window, or `Daily`, `Weekly`, `Monthly` or `Yearly`;
- an optional inclusive `until` bound on the recurrence.

**Output.** It returns the *active* period (the occurrence in force at `now`) and the *upcoming* period (the next occurrence to begin, at most one cycle ahead), or an error.

**Modules.**
- `Wrappers`: `Option` and `Result`.
- `Instants`: instants as integer nanoseconds. One tick is Go's `time.Duration(1)`, so `now.Add(1)` is one nanosecond later.
- `Recurrence`: the frequency names and calendar stepping. It also models the rrule expansion the evaluator queries.
  - `Between(lo, hi)` walks the occurrences `dtstart`, `dtstart + 1 unit`, … in order. It stops at the first one past `hi` or past `until`.
  - `BetweenSpec` proves that walk's contract from the stepping hypothesis: the result is strictly ascending, and it holds exactly the permitted occurrence starts in `[lo, hi]`.
- `Overrides`: the `Period` record, the evaluator `Calculate` and the theorems about it. The theorems about recurring windows are stated on `RepeatingSchedule`, the branch `Calculate` takes for `Daily`, `Weekly`, `Monthly` and `Yearly`; `CalculateRepeat` proves that `Calculate` is that branch for those four spellings.
- `FixedStep`: a closed-form reference schedule for daily and weekly windows (one floor division), proved equal to the evaluator on every input.
- `OverrideCases`: the rows of the source's expected-value table, one lemma each. Monthly and yearly rows take as hypotheses the calendar dates they use (for example, that one month after 2021-05-01 is 2021-06-01).

**Stepping.**
- Daily and weekly steps are fixed lengths: 86 400 s and 604 800 s in ticks. This holds in a fixed-offset zone.
- Monthly and yearly steps are the `Calendar`'s `addMonths`/`addYears`. One function computes both the cycle end `now + 1 unit` and the k-th anchor `start + k units`. The theorems assume only that these functions start at their argument and strictly increase (`Stepping`).

## Model

| member | source | states |
|---|---|---|
| Recurrence.ParseFrequency | controllers/horizontalrunnerautoscaler_scheduled_overrides_test.go:650-675 | exactly the five spellings `""`, `Daily`, `Weekly`, `Monthly`, `Yearly` are recognised (both directions); a recognised one is parsed to the frequency of that name |
| Recurrence.ParseFrequencyName | controllers/horizontalrunnerautoscaler_scheduled_overrides_test.go:650-663 | every frequency is recognised under its own name (round trip) |
| Recurrence.Collect | controllers/horizontalrunnerautoscaler_scheduled_overrides_test.go:691-701 | every anchor the enumerator returns lies in the closed query interval and is not past `until` |
| Recurrence.BetweenSpec | controllers/horizontalrunnerautoscaler_scheduled_overrides_test.go:691-701 | the enumerator returns a strictly ascending list. An instant is in it iff it is an occurrence start in the closed interval that `until` permits |
| Recurrence.BetweenOne | controllers/horizontalrunnerautoscaler_scheduled_overrides_test.go:701 | a query interval that holds the k-th occurrence, but neither the one before nor a permitted one after, returns exactly that occurrence |
| Recurrence.BetweenNone | controllers/horizontalrunnerautoscaler_scheduled_overrides_test.go:715 | a query interval strictly between two consecutive occurrences (or after the last permitted one) returns nothing |
| Recurrence.BetweenHasTwo | controllers/horizontalrunnerautoscaler_scheduled_overrides_test.go:701-706 | the enumerator returns more than one anchor iff two distinct anchors lie in the interval |
| Recurrence.BetweenAtMostOne | controllers/horizontalrunnerautoscaler_scheduled_overrides_test.go:705-712 | when at most one anchor is returned, it is the only anchor in the interval; none is returned iff none lies there |
| Recurrence.BetweenFirst | controllers/horizontalrunnerautoscaler_scheduled_overrides_test.go:715-724 | the first anchor returned is the earliest in the interval; none is returned iff the interval holds no anchor |
| Overrides.Calculate | controllers/horizontalrunnerautoscaler_scheduled_overrides_test.go:643-727 | an unknown frequency fails iff it is not one of the five, carrying the string. Every period returned has the override's length. The active one contains `now`; the upcoming one starts strictly after `now` |
| Overrides.RepeatingSchedule | controllers/horizontalrunnerautoscaler_scheduled_overrides_test.go:677-726 | the repeating branch: every period it returns has the override's length; the active one contains `now`; the upcoming one starts strictly after `now` |
| Overrides.CalculateRepeat | controllers/horizontalrunnerautoscaler_scheduled_overrides_test.go:650-662 | each of the four recurring spellings sends the evaluator to the repeating branch with that unit |
| Overrides.OneTimeNotStarted | controllers/horizontalrunnerautoscaler_scheduled_overrides_test.go:663-666 | before the start of a one-time window: nothing active, the window upcoming, no error |
| Overrides.OneTimeInProgress | controllers/horizontalrunnerautoscaler_scheduled_overrides_test.go:668-670 | from the start (inclusive) until the end: the window active, nothing upcoming |
| Overrides.OneTimeFinished | controllers/horizontalrunnerautoscaler_scheduled_overrides_test.go:672 | from the end (exclusive) on: nothing active or upcoming, and no error |
| Overrides.OneTimeExclusive | controllers/horizontalrunnerautoscaler_scheduled_overrides_test.go:663-672 | a non-empty one-time window never fails. Before its end exactly one of active and upcoming is set; from its end on, neither is |
| Overrides.InvalidFrequencyRejected | controllers/horizontalrunnerautoscaler_scheduled_overrides_test.go:673-674 | a frequency outside the five spellings yields the invalid-frequency error and no periods, and only such a frequency does |
| Overrides.OverrideTooLongRejected | controllers/horizontalrunnerautoscaler_scheduled_overrides_test.go:677-689 | a repeating window fails as too long iff its length exceeds the cycle measured from `now`. The error reports the length, the unit and that cycle |
| Overrides.TwoInForce | controllers/horizontalrunnerautoscaler_scheduled_overrides_test.go:700-707 | the active-lookup query returns more than one anchor iff two distinct occurrences are in force at `now` |
| Overrides.ActiveLookup | controllers/horizontalrunnerautoscaler_scheduled_overrides_test.go:705-712 | when the active-lookup query returns at most one anchor, the period built from it is `[a, a + length)` exactly for the occurrence `a` in force, and absent iff none is |
| Overrides.UpcomingLookup | controllers/horizontalrunnerautoscaler_scheduled_overrides_test.go:714-724 | the period built from the first anchor of the upcoming query starts at the earliest anchor in `(now, cycle end]`, and is absent iff there is none |
| Overrides.ReportsInForceUnique | controllers/horizontalrunnerautoscaler_scheduled_overrides_test.go:705-712 | at most one optional period reports the occurrence in force |
| Overrides.ReportsNextStartUnique | controllers/horizontalrunnerautoscaler_scheduled_overrides_test.go:714-724 | at most one optional period of the override's length reports the next start |
| Overrides.NextStartMonotone | controllers/horizontalrunnerautoscaler_scheduled_overrides_test.go:714-724 | the earliest anchor after `now` never decreases as `now` grows, whatever the cycle ends |
| Overrides.BugDetectedWhenTwoInForce | controllers/horizontalrunnerautoscaler_scheduled_overrides_test.go:700-707 | in the repeating branch the defensive error is returned iff the window passed validation and two distinct occurrences are in force at `now` |
| Overrides.ActiveIsTheOccurrenceInForce | controllers/horizontalrunnerautoscaler_scheduled_overrides_test.go:700-712 | in the repeating branch, on success the active period is `[a, a + length)` exactly for the permitted occurrence start `a` with `a <= now < a + length`; it is absent iff no occurrence is in force |
| Overrides.UpcomingIsTheNextStart | controllers/horizontalrunnerautoscaler_scheduled_overrides_test.go:714-724 | in the repeating branch, on success the upcoming period begins at the earliest permitted occurrence start in `(now, now + 1 unit]`, so one starting at `now` is never upcoming; it is absent iff there is none |
| Overrides.SpacedNeverBug | controllers/horizontalrunnerautoscaler_scheduled_overrides_test.go:700-707 | in the repeating branch, when successive occurrence starts are at least the override's length apart, the defensive error never fires |
| Overrides.FixedStepNeverBug | controllers/horizontalrunnerautoscaler_scheduled_overrides_test.go:651-707 | the repeating branch never produces the defensive error for daily and weekly windows |
| Overrides.InsideLastOccurrence | controllers/horizontalrunnerautoscaler_scheduled_overrides_test.go:691-724 | in the repeating branch, inside the last occurrence `until` permits, that occurrence is active and nothing is upcoming |
| Overrides.UntilExhausted | controllers/horizontalrunnerautoscaler_scheduled_overrides_test.go:691-727 | in the repeating branch, once every permitted occurrence has ended, the result is "nothing active, nothing upcoming" iff the window fits one cycle |
| Overrides.UpcomingStartsNext | controllers/horizontalrunnerautoscaler_scheduled_overrides_test.go:714-724 | on success an upcoming period starts at the earliest permitted occurrence start in `(now, now + 1 unit]` |
| Overrides.UpcomingMonotone | controllers/horizontalrunnerautoscaler_scheduled_overrides_test.go:714-724 | in the repeating branch, as `now` advances, the upcoming start never moves backwards |
| FixedStep.FixedOccurrence | controllers/horizontalrunnerautoscaler_scheduled_overrides_test.go:651-656 | the k-th daily or weekly occurrence is `start + k` steps |
| FixedStep.InForceFixed | controllers/horizontalrunnerautoscaler_scheduled_overrides_test.go:700-712 | with a fixed step, the only occurrence that can be in force is the latest start at or before `now` (both directions) |
| FixedStep.NextFixed | controllers/horizontalrunnerautoscaler_scheduled_overrides_test.go:714-716 | with a fixed step, the start one step after the latest one (or `start` itself, before it) is an occurrence after `now`, and no anchor after `now` precedes it |
| FixedStep.NextStartFixed | controllers/horizontalrunnerautoscaler_scheduled_overrides_test.go:714-724 | the closed form's upcoming period is the earliest anchor in the next cycle (both directions), and it is absent iff that cycle holds none |
| FixedStep.ActiveFixed | controllers/horizontalrunnerautoscaler_scheduled_overrides_test.go:700-712 | the closed form's active period reports exactly the daily or weekly occurrence in force |
| FixedStep.ActiveMatches | controllers/horizontalrunnerautoscaler_scheduled_overrides_test.go:700-712 | for daily and weekly windows the repeating branch's active period equals the closed form's |
| FixedStep.UpcomingMatches | controllers/horizontalrunnerautoscaler_scheduled_overrides_test.go:714-724 | for daily and weekly windows the repeating branch's upcoming period equals the closed form's |
| FixedStep.MatchesReference | controllers/horizontalrunnerautoscaler_scheduled_overrides_test.go:643-727 | for daily and weekly windows the evaluator returns exactly the over-long error or the closed-form schedule, on every input |
| FixedStep.AtOccurrenceStart | controllers/horizontalrunnerautoscaler_scheduled_overrides_test.go:209-225 | at the k-th start, occurrence k is active and occurrence k+1 upcoming when `until` permits it |
| FixedStep.AtOccurrenceEnd | controllers/horizontalrunnerautoscaler_scheduled_overrides_test.go:245-261 | at the k-th end nothing is active and occurrence k+1 is upcoming when `until` permits it |
| OverrideCases.OneTimeIncoming | controllers/horizontalrunnerautoscaler_scheduled_overrides_test.go:55-69 | one second before the start, the one-time window is upcoming only |
| OverrideCases.OneTimeStarted | controllers/horizontalrunnerautoscaler_scheduled_overrides_test.go:71-85 | at the start, the window is active only |
| OverrideCases.OneTimeEnding | controllers/horizontalrunnerautoscaler_scheduled_overrides_test.go:87-101 | one second before the end, still active only |
| OverrideCases.OneTimeEnded | controllers/horizontalrunnerautoscaler_scheduled_overrides_test.go:103-117 | at the end, nothing |
| OverrideCases.WeeklyIncoming | controllers/horizontalrunnerautoscaler_scheduled_overrides_test.go:119-135 | before the first weekly start, the first occurrence is upcoming |
| OverrideCases.WeeklyStarted | controllers/horizontalrunnerautoscaler_scheduled_overrides_test.go:137-153 | at the first start it is active and 05-08 upcoming |
| OverrideCases.WeeklyEnding | controllers/horizontalrunnerautoscaler_scheduled_overrides_test.go:155-171 | one second before the first end, the same |
| OverrideCases.WeeklyEnded | controllers/horizontalrunnerautoscaler_scheduled_overrides_test.go:173-189 | at the first end only 05-08 upcoming |
| OverrideCases.WeeklyRecurrenceIncoming | controllers/horizontalrunnerautoscaler_scheduled_overrides_test.go:191-207 | one second before the second start, it is upcoming |
| OverrideCases.WeeklyRecurrenceStarted | controllers/horizontalrunnerautoscaler_scheduled_overrides_test.go:209-225 | at the second start it is active and 05-15 upcoming |
| OverrideCases.WeeklyRecurrenceEnding | controllers/horizontalrunnerautoscaler_scheduled_overrides_test.go:227-243 | one second before the second end, the same |
| OverrideCases.WeeklyRecurrenceEnded | controllers/horizontalrunnerautoscaler_scheduled_overrides_test.go:245-261 | at the second end only 05-15 upcoming |
| OverrideCases.WeeklyLastIncoming | controllers/horizontalrunnerautoscaler_scheduled_overrides_test.go:263-279 | before the last permitted start (2022-04-30), it is upcoming |
| OverrideCases.WeeklyLastStarted | controllers/horizontalrunnerautoscaler_scheduled_overrides_test.go:281-297 | at the last start it is active and nothing is upcoming |
| OverrideCases.WeeklyLastEnding | controllers/horizontalrunnerautoscaler_scheduled_overrides_test.go:299-315 | one second before the last end, the same |
| OverrideCases.WeeklyLastEnded | controllers/horizontalrunnerautoscaler_scheduled_overrides_test.go:317-333 | at the last end, nothing |
| OverrideCases.WeeklyForeverStarting | controllers/horizontalrunnerautoscaler_scheduled_overrides_test.go:335-350 | without `until`, at the second start it is active and 05-15 upcoming |
| OverrideCases.MonthlyJustStarting | controllers/horizontalrunnerautoscaler_scheduled_overrides_test.go:352-368 | at the first monthly start it is active and June upcoming |
| OverrideCases.MonthlyJustRecurring | controllers/horizontalrunnerautoscaler_scheduled_overrides_test.go:370-386 | at the June start June is active and July upcoming |
| OverrideCases.MonthlyLastIncoming | controllers/horizontalrunnerautoscaler_scheduled_overrides_test.go:388-404 | one second before 2022-05-01, nothing active and the last occurrence upcoming |
| OverrideCases.MonthlyLastStarting | controllers/horizontalrunnerautoscaler_scheduled_overrides_test.go:406-422 | at the last start it is active and nothing upcoming |
| OverrideCases.MonthlyLastStarted | controllers/horizontalrunnerautoscaler_scheduled_overrides_test.go:424-440 | one second after it, the same |
| OverrideCases.MonthlyLastEnding | controllers/horizontalrunnerautoscaler_scheduled_overrides_test.go:442-458 | one second before its end, the same |
| OverrideCases.MonthlyLastEnded | controllers/horizontalrunnerautoscaler_scheduled_overrides_test.go:460-476 | at its end, nothing |
| OverrideCases.YearlyJustStarting | controllers/horizontalrunnerautoscaler_scheduled_overrides_test.go:478-494 | at the first yearly start it is active and 2022 upcoming |
| OverrideCases.YearlyJustRecurring | controllers/horizontalrunnerautoscaler_scheduled_overrides_test.go:496-512 | at the 2022 start 2022 is active and 2023 upcoming |
| OverrideCases.YearlyLastIncoming | controllers/horizontalrunnerautoscaler_scheduled_overrides_test.go:514-530 | one second before 2023-05-01, nothing active and 2023 upcoming |
| OverrideCases.YearlyLastStarting | controllers/horizontalrunnerautoscaler_scheduled_overrides_test.go:532-548 | at the last start it is active and nothing upcoming |
| OverrideCases.YearlyLastStarted | controllers/horizontalrunnerautoscaler_scheduled_overrides_test.go:550-566 | one second after it, the same |
| OverrideCases.YearlyLastEnding | controllers/horizontalrunnerautoscaler_scheduled_overrides_test.go:568-584 | late on its last day, the same |
| OverrideCases.YearlyLastEnded | controllers/horizontalrunnerautoscaler_scheduled_overrides_test.go:586-602 | at its end, nothing |
| OverrideCases.MonthlyBugReachable | controllers/horizontalrunnerautoscaler_scheduled_overrides_test.go:677-707 | a 31-day monthly window from 2021-02-01, evaluated on 2021-03-02, passes validation and still yields the defensive error, carrying both the February and the March start |

## Left out

- RFC 3339 parsing in `doCalculateActiveAndUpcomingRecurringPeriods` (lines 618-641) and formatting in `Period.String` (610-616): thin wrappers over Go's `time` package. Instants are integers here. Go's zero `untilTime` (no `until` given) is `None`.
- The rrule-go library itself is not part of this model. `rrule.NewRRule` and its error return (691-698) are left out: with only a frequency, a start and an until it has no failure the evaluator can reach. `Between` is replaced by the enumerator `Recurrence.Between`, whose contract is proved, not assumed.
- rrule-go truncates `Dtstart` to whole seconds. The model keeps nanosecond starts. Every start in the expected-value table is a whole second.
- Go's `time.Date` normalisation of month and year overflow, time zones and daylight-saving shifts (677-682). Monthly and yearly stepping is an abstract `Calendar`, and daily and weekly steps are fixed lengths.
  - rrule-go skips months that lack the start's day of month (a 31st, say), while `time.Date` rolls over into the next month. The model uses one stepping function for both the cycle end and the anchors, so it does not show where the two differ.
- Saturation of Go's `time.Duration` (`Sub` clamps to the int64 range) and int64 wrap-around of instants: instants and durations are unbounded integers.
- The error messages' wording (674, 688, 706): errors are the datatype `Overrides.Error`, carrying the same data.
- The test harness (lines 28-53: `t.Run`, the `check` helper): only the expected values are kept, as the `OverrideCases` lemmas.
- Monthly validation, as written, measures the cycle from `now`, not from the occurrence in force. So validation does not guarantee at most one active anchor, although the design intends it to. The model follows the code: `MonthlyBugReachable` shows a window that passes validation and yields the defensive error. Daily and weekly windows cannot reach that error (`FixedStepNeverBug`). For monthly and yearly windows, `SpacedNeverBug` states the spacing condition under which the error cannot occur.
