# FitPlan-AI workout and planning logic in Dafny

This project models the client-side decision logic of FitPlan-AI, a
Next.js fitness planner, and proves properties of the model:

- **Guided workout timer** (`WorkoutTimer`, from `components/workout-timer.tsx`).
  It takes one exercise at a time through `ready → exercising → resting →
  (ready | logging)`, with a `summary` phase at the end. The class `Timer`
  has the component's `useState` values as fields, and each handler is a
  method. The interval is an explicit `Tick` method. The two React effects
  run as explicit steps at the end of every event. Effect 1 runs only when
  its dependencies changed, which the field `seen` tracks. The pure
  functions `Handle`, `Step`, `Resync` and `Settled` are what the methods
  are proved against.
- **Workout session aggregator** (`WorkoutTracker`, from
  `components/workout-tracker.tsx`).
  - The class `Tracker` holds the completion map and the log table, both
    updated in place. The timer writes to them through the tracker.
  - Finishing a workout is the pure function `Finalize`. It builds the
    session row, the log rows of the completed exercises, whether the
    workout is marked completed, which exercises are marked, and where the
    page goes next.
  - The timer is rendered only for a workout not yet completed
    (`ShowsTimer`). "Update Workout" is rendered only for a completed
    workout with changes (`ShowsUpdateButton`). These two are predicates
    with no contract of their own.
- **Calendar** (`WorkoutCalendar`): the week shown and its navigation, the
  seven days of a week, which workouts a day lists, and the name it lists
  them under.
- **Plan page** (`GeneratePlan`): how a loaded plan is sorted, and the weekday
  scheduling of a generated plan's workouts when it is saved.
- **Dashboard** (`Dashboard`): the completion count and percentage, the week
  strip, and the Start/Redo label.
- **Onboarding** (`Onboarding`): the default answers, the equipment
  checkboxes, the empty-equipment guard, and the four-step navigation.
- **Meal-plan page** (`MealPlanPage`): the preference checkboxes, the
  `preferences → generating → preview` steps, the one-time automatic start,
  and the meal rows a save inserts.
- **Meals page** (`MealsPage`): today's macro totals and the per-type lists.
- **Generation routes** (`JsonSpan`, `GenerateWorkoutRoute`,
  `GenerateMealRoute`): cutting the JSON object out of the model's text, and
  the error responses.
- **Route guard** (`Proxy`): the redirect decision of `updateSession`.

Shared modules model the JavaScript behaviour the pages rely on:

- `Types`: the enumerations of `lib/types.ts`, plus `Option`, `Result` and
  thrown values.
- `Js`: `x || d`, the truncating `%`, and `Math.round` of a quotient.
- `Text`: `split`, `join`, `includes`, `startsWith`, `String(n)`,
  `padStart` and `parseInt(...) || 0`.
- `Dates`: dates as day numbers. Day 0 is 1970-01-01, `getDay()` is
  `(d + 4) % 7`, and the proleptic Gregorian year/month/day is given with
  its inverse.
- `Lists`: `filter`, the checkbox toggle, and a stable sort by an integer
  key.

Storage (Supabase), authentication and the AI calls are not modelled.
Wherever the code awaits one of them, its answer is a parameter: "a user is
signed in", "the profile lookup found a record", "the generator returned
this plan or threw this value", "the insert failed with this value".
Finishing a workout returns the session row, the log rows and the ids to
mark that it would write. Saving a generated workout plan returns only
the dates its workout rows would carry. Saving a meal plan returns
whether the plan insert is reached and the meal rows. The other writes
are listed under "## Left out".

Each handler of the timer and the tracker requires the phase in which its
control is rendered, since the control is the only way to invoke it.

## Model

| member | source | states |
|---|---|---|
| Js.Or | components/workout-timer.tsx:62-63 | `x \|\| d` keeps a present non-zero number and otherwise gives the default; the default comes out exactly when the value is missing, zero, or equal to the default |
| Js.Rem | components/workout-timer.tsx:153 | JavaScript `%` takes the sign of the dividend and is smaller in size than the divisor |
| Js.RemOfNonNegative | components/workout-timer.tsx:153 | on a non-negative dividend, JavaScript `%` equals the mathematical remainder |
| Js.RoundDiv | app/dashboard/page.tsx:51 | `Math.round(n / d)` is the nearest integer, halves rounded up: `2dr <= 2n + d < 2d(r + 1)` |
| Text.IndexOfFrom | components/workout-calendar.tsx:82 | the index found holds an occurrence of the pattern and no earlier index does; none found means no occurrence from there on |
| Text.ContainsIff | components/workout-calendar.tsx:152 | `includes` holds exactly when the pattern occurs at some index |
| Text.SplitShape | components/workout-calendar.tsx:82 | `split` gives at least one piece, more than one exactly when the separator occurs, and its first piece is the text before the first separator (the whole text if there is none) |
| Text.JoinSplit | components/workout-calendar.tsx:153 | joining the pieces of a split with the same separator gives back the string |
| Text.AfterFirstDecomposes | components/workout-calendar.tsx:152-154 | first piece + separator + `split(sep).slice(1).join(sep)` rebuilds the name; the latter is exactly the text after the first separator |
| Text.NatToString | components/workout-timer.tsx:154 | `String(n)` is all digits, has no leading zero, and has 1, 2, 3 or 4 characters for numbers below 10, 100, 1000 and 10000 |
| Text.NatToStringRoundTrip | components/workout-timer.tsx:154 | reading the digits of `String(n)` gives back `n` |
| Text.PadStart | components/workout-timer.tsx:154 | `padStart` gives the larger of the width and the length, ends with the original string, and is padding before it |
| Text.Pad2 | components/workout-calendar.tsx:74 | a month or day number becomes exactly two digits that read back as the number |
| Text.Pad4 | app/dashboard/generate-plan/page.tsx:254 | a year below 10000 becomes exactly four digits |
| Text.ParseIntOrZeroRoundTrip | components/workout-timer.tsx:346 | `parseInt(String(n)) \|\| 0` is `n` for every integer |
| Dates.Weekday | components/workout-calendar.tsx:75 | `getDay()` is in 0..6 |
| Dates.WeekdayAdd | components/workout-calendar.tsx:51 | moving `k` days moves the weekday `k` places round the week |
| Dates.WeekStart | components/workout-calendar.tsx:24-29 | the initial week start is a Sunday at most six days back; today minus it is today's weekday |
| Dates.WeekOf | components/workout-calendar.tsx:47-55 | the week has seven consecutive days from its start |
| Dates.WeekOfWeekdays | components/workout-calendar.tsx:47-55 | a week starting on a Sunday has weekdays 0, 1, …, 6 in order |
| Dates.WeekdayNamesBijective | app/dashboard/generate-plan/page.tsx:220-228 | the day-name table maps Sunday..Saturday one-to-one onto 0..6 and nothing else to a weekday |
| Dates.CivilOf | components/workout-calendar.tsx:74 | `getMonth() + 1` is in 1..12 and `getDate()` in 1..31 |
| Dates.CivilOfInverse | components/workout-calendar.tsx:74 | the year, month and day of a day determine it: `DayNumber(CivilOf(d)) == d` |
| Dates.LocalDateStringRoundTrip | components/workout-calendar.tsx:74 | the calendar's `YYYY-MM-DD` key reads back as the year, month and day it was built from |
| Dates.IsoMatchesLocalForFourDigitYears | app/dashboard/generate-plan/page.tsx:254 | for four-digit years the date part of `toISOString()` equals the calendar's key |
| Lists.Filter | components/workout-calendar.tsx:77-86 | `filter` is no longer than its input, keeps exactly the elements passing the test, and keeps every copy of them |
| Lists.FilterIsSubsequence | components/workout-calendar.tsx:77-86 | `filter` keeps the original order |
| Lists.FilterAppend | app/onboarding/page.tsx:48 | filtering a concatenation is concatenating the filtered parts |
| Lists.FilterAll | app/onboarding/page.tsx:48 | a filter every element passes changes nothing |
| Lists.FilterKeepsAllIff | app/dashboard/page.tsx:50 | a filter keeps its whole input exactly when every element passes |
| Lists.Toggle | app/onboarding/page.tsx:46-48 | checking appends the option at the end; unchecking removes every copy of it, keeps the rest in order, and keeps every other option's count |
| Lists.ToggleRoundTrip | app/onboarding/page.tsx:43-50 | checking and then unchecking an option that was not selected restores the list |
| Lists.InsertByKey | app/dashboard/generate-plan/page.tsx:106 | inserting keeps the elements (as a multiset) and keeps a sorted list sorted |
| Lists.SortByKey | app/dashboard/generate-plan/page.tsx:106 | the sort is a permutation of its input, sorted by the key |
| Lists.SortSortedIsIdentity | app/dashboard/generate-plan/page.tsx:109-111 | a list already in key order is left as it is |
| Lists.SortIsStable | app/dashboard/generate-plan/page.tsx:106 | elements with the same key keep their relative order |
| WorkoutTracker.InitialCompletion | components/workout-tracker.tsx:55-63 | the completion map has one entry per exercise id, holding that exercise's stored `completed` flag |
| WorkoutTracker.InitialLogs | components/workout-tracker.tsx:64-83 | the log table has one entry per exercise id, seeded by `SeedLog` |
| WorkoutTracker.SeedLogPrefill | components/workout-tracker.tsx:67-78 | with a previous log: its sets, reps, weight and notes; without one: planned sets or 0, planned reps or "", weight 0, notes ""; the duration always comes from the exercise |
| WorkoutTracker.AllCompletedStays | components/workout-tracker.tsx:286-289 | a workout with every exercise complete stays complete under updates that never clear an entry |
| WorkoutTracker.CompletedIds | components/workout-tracker.tsx:133-134 | the ids selected are exactly the exercise ids whose entry is true |
| WorkoutTracker.LogRows | components/workout-tracker.tsx:133-143 | one row per selected id, in order, each row that id's log keyed by that id |
| WorkoutTracker.LogRowsIgnoreIncomplete | components/workout-tracker.tsx:133-143 | edits to the logs of incomplete exercises never reach the saved rows |
| WorkoutTracker.AllCompletedIffAllIds | components/workout-tracker.tsx:151 | every exercise is complete exactly when every exercise id is selected |
| WorkoutTracker.Finalize | components/workout-tracker.tsx:117-178 | the session row carries the workout, date, notes and feeling; logs are inserted iff some exercise is complete; the workout is marked completed iff all exercises are; exactly the complete exercises are marked; the popup shows iff all are complete, otherwise the page redirects; the ids to mark are exactly the completed ids in exercise order, and the log rows exactly their logs, each keyed by its id |
| WorkoutTracker.Tracker.constructor | components/workout-tracker.tsx:55-90 | the initial state: completion map and logs as above, empty notes, feeling "moderate", no error, no changes, index 0 |
| WorkoutTracker.Tracker.UpdateExerciseLog | components/workout-tracker.tsx:94-103 | only the named field of the named exercise changes; every other entry is unchanged; `hasChanges` is set |
| WorkoutTracker.Tracker.MarkExerciseComplete | components/workout-tracker.tsx:286-289 | only that entry becomes true, no entry becomes false, `hasChanges` is set |
| WorkoutTracker.Tracker.SetCurrentIndex | components/workout-tracker.tsx:276 | the index becomes the one asked for |
| WorkoutTracker.Tracker.SelectFromList | components/workout-tracker.tsx:310-313 | a click selects that exercise only for a workout not yet completed |
| WorkoutTracker.Tracker.CompleteWorkout | components/workout-tracker.tsx:105-184 | without a user: the error "Not authenticated" and nothing saved; with one: `Finalize` of the current state, the popup set iff all exercises are complete |
| WorkoutTracker.Tracker.OnComplete | components/workout-tracker.tsx:277-281 | stores the feeling and notes, but the save carries the values held before; without a user the error is "Not authenticated" and the popup stays, with one the popup is set when every exercise is complete and otherwise keeps its value |
| WorkoutTimer.RestSeconds | components/workout-timer.tsx:63 | the rest time is never zero, and it is 60 exactly when `rest_seconds` is missing, 0 or 60 |
| WorkoutTimer.SetLimit | components/workout-timer.tsx:62 | the set limit is at least 1 and at least `sets \|\| 1` |
| WorkoutTimer.CountTestAgrees | components/workout-timer.tsx:64-65 | on the tracker's map, "as many entries as exercises, all true" means "every exercise complete" |
| WorkoutTimer.ResyncSummary | components/workout-timer.tsx:69-84 | re-sync shows the summary iff all are complete and the phase is not already summary; otherwise set 1, stopped, remaining 0, and `logging` iff the current exercise is complete |
| WorkoutTimer.ResyncIntendedProperties | components/workout-timer.tsx:69-84 | the corrected re-sync keeps the summary once all are complete, and agrees with the written one everywhere else |
| WorkoutTimer.AdvanceSet | components/workout-timer.tsx:93-101 | the end of a rest: next set in `ready` while sets remain, else `logging` at the same set |
| WorkoutTimer.RestEffect | components/workout-timer.tsx:93-101 | after effect 2 no expired running rest is left pending |
| WorkoutTimer.Settled | components/workout-timer.tsx:69-106 | after both effects no expired running rest is left pending |
| WorkoutTimer.StepKeepsClockOk | components/workout-timer.tsx:129-149 | every timer handler, then the effects, keeps a resting countdown non-zero and the set in 1..SetLimit |
| WorkoutTimer.SettledClockOk | components/workout-timer.tsx:69-101 | a re-sync after an exercise change puts the set back in range; with changed dependencies both effects come down to the re-sync, and without a change a consistent clock is left alone |
| WorkoutTimer.LastExerciseSettles | components/workout-timer.tsx:69-123 | setting `summary` on the last exercise survives the effects only when that exercise was already complete; a click that completes it ends in `logging` at set 1 |
| WorkoutTimer.CompleteSetStartsRest | components/workout-timer.tsx:131-135 | completing a set always starts a running rest of the full rest time, at the same set |
| WorkoutTimer.TickSteps | components/workout-timer.tsx:89-101 | a tick while running with time left takes off exactly one second, never going negative; reaching 0 while resting ends the rest; a paused or expired timer does not change |
| WorkoutTimer.RestControls | components/workout-timer.tsx:137-149 | pause/resume flips only the running flag (twice is no change); reset restores the full rest, stopped; skip stops at 0 and ends the rest |
| WorkoutTimer.SkipToLoggingKeepsCountdown | components/workout-timer.tsx:377 | Skip goes to `logging` and leaves the countdown as it was |
| WorkoutTimer.TicksCountDown | components/workout-timer.tsx:89-92 | `j` ticks of a running rest with more than `j` seconds take off exactly `j` |
| WorkoutTimer.RestRunsOut | components/workout-timer.tsx:89-101 | waiting out a rest of `r` seconds takes `r` ticks, stays resting until then, and ends where skipping it would |
| WorkoutTimer.SetCycleRests | components/workout-timer.tsx:129-135 | start then complete always reaches a rest |
| WorkoutTimer.ExactlySetLimitRests | components/workout-timer.tsx:93-135 | from set 1 in `ready`, each start/complete/rest cycle below the limit returns to `ready` at the next set, and cycle number SetLimit reaches `logging`: exactly SetLimit rests before logging |
| WorkoutTimer.FormatTimeReadsBack | components/workout-timer.tsx:151-155 | `m:ss` with two digits of seconds below 60, and minutes·60 + seconds gives the count back |
| WorkoutTimer.Timer.constructor | components/workout-timer.tsx:52-84 | the initial state, then effect 1 on mount |
| WorkoutTimer.Timer.ExerciseEffect | components/workout-timer.tsx:69-84 | effect 1 re-syncs exactly when its dependencies changed |
| WorkoutTimer.Timer.RestExpiryEffect | components/workout-timer.tsx:93-101 | the expiry branch ends an expired running rest |
| WorkoutTimer.Timer.Settle | components/workout-timer.tsx:69-106 | both effects, in declaration order, are `Settled` |
| WorkoutTimer.Timer.StartExercise | components/workout-timer.tsx:129 | moves from `ready` to `exercising` and changes nothing else |
| WorkoutTimer.Timer.CompleteSet | components/workout-timer.tsx:131-135 | enters `resting` with the full rest time, running, at the same set |
| WorkoutTimer.Timer.SkipRest | components/workout-timer.tsx:137-146 | stops at 0; next set in `ready` while sets remain, else `logging` |
| WorkoutTimer.Timer.ToggleRestTimer | components/workout-timer.tsx:148 | flips only the running flag |
| WorkoutTimer.Timer.ResetRestTimer | components/workout-timer.tsx:149 | restores the full rest and stops |
| WorkoutTimer.Timer.Tick | components/workout-timer.tsx:89-92 | a tick takes one second off a running countdown with time left, and does nothing otherwise |
| WorkoutTimer.Timer.SkipToLogging | components/workout-timer.tsx:377 | moves to `logging` only |
| WorkoutTimer.Timer.PrevExercise | components/workout-timer.tsx:108-112 | moves back only from an index above 0, and a move re-syncs; the tracker's completions, logs, `hasChanges`, error, success popup, feeling and notes stay as they were |
| WorkoutTimer.Timer.JumpTo | components/workout-timer.tsx:374 | a progress dot selects its exercise and re-syncs if the index changed; the tracker's completions, logs, `hasChanges`, error, success popup, feeling and notes stay as they were |
| WorkoutTimer.Timer.SelectFromList | components/workout-tracker.tsx:310-313 | the tracker's list changes the index under the timer, which then re-syncs; the tracker's completions, logs, `hasChanges`, error, success popup, feeling and notes stay as they were |
| WorkoutTimer.Timer.MarkAndAdvance | components/workout-timer.tsx:114-122 | marks the current exercise complete, then moves to the next index, or sets `summary` on the last one; the tracker's error, success popup, feeling and notes stay as they were |
| WorkoutTimer.Timer.NextExercise | components/workout-timer.tsx:114-123 | marks the current exercise complete and keeps the logs; moves to the next index, or stays on the last one with `summary` set; the clock is then what both effects make of that handler state; the tracker's error, success popup, feeling and notes stay as they were |
| WorkoutTimer.Timer.EditSets | components/workout-timer.tsx:346 | the current log's sets become `parseInt(value) \|\| 0`; `hasChanges` is set; the tracker's error, success popup, feeling and notes stay as they were |
| WorkoutTimer.Timer.EditReps | components/workout-timer.tsx:350 | the current log's reps become the text typed; `hasChanges` is set; the tracker's error, success popup, feeling and notes stay as they were |
| WorkoutTimer.Timer.EditWeight | components/workout-timer.tsx:354 | the current log's weight becomes the parsed value, 0 on bad input; `hasChanges` is set; the tracker's error, success popup, feeling and notes stay as they were |
| WorkoutTimer.Timer.SetFeeling | components/workout-timer.tsx:187 | the chosen feeling is stored |
| WorkoutTimer.Timer.SetNotes | components/workout-timer.tsx:208 | the typed notes are stored |
| WorkoutTimer.Timer.FinishWorkout | components/workout-timer.tsx:125-127 | hands the feeling and notes to the page, whose save uses the feeling and notes it held before; without a user the error is "Not authenticated" and the popup stays, with one the error is cleared and the popup is set when every exercise is complete and otherwise keeps its value; completions, logs, index and `hasChanges` stay as they were |
| WorkoutTimer.FinishOnLastAsWritten | components/workout-timer.tsx:114-123 | finishing an incomplete last exercise, when that completes the workout, lands in `logging` instead of `summary` |
| WorkoutTimer.SettledIntended | components/workout-timer.tsx:69-106 | both effects with the corrected re-sync leave no expired running rest pending |
| WorkoutTimer.FinishOnLastIntended | components/workout-timer.tsx:69-74 | with the corrected re-sync, finishing the last exercise of a completed workout shows the summary |
| WorkoutCalendar.ShiftWeek | components/workout-calendar.tsx:31-45 | moving by `k` weeks moves the start by `7k` days and keeps its weekday |
| WorkoutCalendar.WeekView.constructor | components/workout-calendar.tsx:24-29 | the first week starts on the Sunday of today's week |
| WorkoutCalendar.WeekView.PreviousWeek | components/workout-calendar.tsx:31-37 | the start moves back exactly 7 days |
| WorkoutCalendar.WeekView.NextWeek | components/workout-calendar.tsx:39-45 | the start moves on exactly 7 days |
| WorkoutCalendar.WeekView.GetWeekDays | components/workout-calendar.tsx:47-55 | the loop yields 7 consecutive days from the week start |
| WorkoutCalendar.WeekNavigationInverse | components/workout-calendar.tsx:31-45 | previous and next week undo each other |
| WorkoutCalendar.DayKeyDeterminesDay | components/workout-calendar.tsx:74-79 | for years from 0 on, two days have the same date key exactly when they are the same day, so a scheduled date matches a single day |
| WorkoutCalendar.WorkoutsForDate | components/workout-calendar.tsx:73-87 | exactly the workouts whose scheduled date is the day's key or whose name prefix names the day's weekday, in their original order |
| WorkoutCalendar.WeekdayNamedRecurs | components/workout-calendar.tsx:81-83 | a workout named "<Weekday> - …" is listed on that weekday in every week, whatever its scheduled date |
| WorkoutCalendar.UnnamedNeedsDate | components/workout-calendar.tsx:77-86 | a workout without a weekday prefix is listed on a day iff its scheduled date is that day's key |
| WorkoutCalendar.DisplayNameDecomposes | components/workout-calendar.tsx:152-154 | prefix + " - " + display name is the name; a name without " - " is shown unchanged |
| GeneratePlan.SortExercises | app/dashboard/generate-plan/page.tsx:109-111 | a workout's exercises become sorted by `order_index ?? 0`, as a permutation, with the other fields kept |
| GeneratePlan.SortEach | app/dashboard/generate-plan/page.tsx:107-112 | every workout keeps its place and gets its exercises sorted |
| GeneratePlan.SortPlan | app/dashboard/generate-plan/page.tsx:103-113 | the loaded plan's workouts are ascending by day number and each workout's exercises ascending by order index |
| GeneratePlan.SortPlanShowsLoadedWorkouts | app/dashboard/generate-plan/page.tsx:103-113 | every workout shown is a loaded workout with the same exercises |
| GeneratePlan.SortPlanPermutes | app/dashboard/generate-plan/page.tsx:103-113 | the workouts shown are the loaded ones with their exercises sorted, each as many times as it was loaded |
| GeneratePlan.LoadedWorkoutsShown | app/dashboard/generate-plan/page.tsx:103-113 | every loaded workout is shown, with the same exercises |
| Lists.MapEachPermutes | app/dashboard/generate-plan/page.tsx:107-112 | mapping two permutations of a list gives two permutations of the mapped list |
| GeneratePlan.LoadedExercisesKeepOrder | app/dashboard/generate-plan/page.tsx:109-111 | exercises without an order index keep the order they were loaded in |
| GeneratePlan.SameDayKeepsOrder | app/dashboard/generate-plan/page.tsx:106 | workouts with the same day number keep their loaded order |
| GeneratePlan.DaySlot | app/dashboard/generate-plan/page.tsx:237 | the slot lies strictly between `-n` and `n`, and is `(day_number - 1) mod n` for day numbers from 1 |
| GeneratePlan.DaySlotWraps | app/dashboard/generate-plan/page.tsx:237-238 | for day numbers from 1 the slot is a valid index, and day numbers `n` apart share a slot |
| GeneratePlan.DaysUntil | app/dashboard/generate-plan/page.tsx:246-250 | days-until is in 0..6, is 0 exactly when the target is today, and lands on the target weekday |
| GeneratePlan.ScheduledDayOnWeekday | app/dashboard/generate-plan/page.tsx:240-254 | a scheduled day is within the coming seven days, on the weekday its slot names, and today exactly when that is today's weekday |
| GeneratePlan.NoDateCases | app/dashboard/generate-plan/page.tsx:233-240 | no date for a day count, for an empty list, or for a slot holding neither a weekday name nor an `Object.prototype` key |
| GeneratePlan.ScheduleWorkouts | app/dashboard/generate-plan/page.tsx:231-289 | the workouts are dated in order up to the first invalid date, which stops the loop with "Invalid time value" |
| GeneratePlan.HandleSavePlan | app/dashboard/generate-plan/page.tsx:170-197 | no plan: nothing happens; no user: "Not authenticated"; no profile: "Could not fetch profile settings"; otherwise the dates of `ScheduleWorkouts`, saved iff every workout has a valid date, and on failure the first workout without a dated slot has an invalid date |
| GeneratePlan.CountOfDaysNeverSchedules | app/dashboard/generate-plan/page.tsx:197 | the day count the profile really stores never yields a date |
| Dashboard.TotalWorkouts | app/dashboard/page.tsx:49 | the number of workouts, 0 without a result |
| Dashboard.CompletedWorkouts | app/dashboard/page.tsx:50 | at most the total; equal to it iff every workout is completed; 0 iff none is |
| Dashboard.PercentBounds | app/dashboard/page.tsx:51 | the rounded percentage is in 0..100, 100 when all are counted, 0 when none is, and 100 iff at least 99.5% are counted |
| Dashboard.CompletionRate | app/dashboard/page.tsx:51 | the rate is in 0..100, 0 without workouts, else the nearest integer to 100·completed/total |
| Dashboard.CompletionRateExtremes | app/dashboard/page.tsx:51 | the rate is 100 when every workout is completed and 0 when none is |
| Dashboard.CompletionRateHundredIff | app/dashboard/page.tsx:51 | the rate reads 100 exactly when at least 99.5% of workouts are done |
| Dashboard.HundredBeforeAllDone | app/dashboard/page.tsx:51 | an instance of `CompletionRateHundredIff`: 199 of 200 completed already reads 100 |
| Dashboard.WeekDays | app/dashboard/page.tsx:54-63 | seven consecutive days from today minus its weekday, Sunday to Saturday, with today among them |
| Dashboard.ActionLabel | app/dashboard/page.tsx:197 | "Redo" exactly for completed workouts, "Start" exactly for the others |
| Onboarding.HandleEquipmentChange | app/onboarding/page.tsx:43-50 | only the equipment list changes: checking appends, unchecking removes every copy and keeps the rest in order |
| Onboarding.EquipmentChangeRoundTrip | app/onboarding/page.tsx:43-50 | checking and unchecking an unselected option restores the form |
| Onboarding.HandleSubmit | app/onboarding/page.tsx:52-85 | empty equipment: the error "Please select at least one equipment option" and nothing saved; no user: "Not authenticated"; the insert gets the form as is; the page goes to /dashboard iff the insert succeeded; a failed insert shows the error's message, or "Failed to save onboarding data" for a non-`Error` |
| Onboarding.DefaultsNeedEquipment | app/onboarding/page.tsx:21-56 | the default answers (beginner, general fitness, 3 days, 45 minutes, no equipment, no limitations) cannot be submitted as they are |
| Onboarding.Press | app/onboarding/page.tsx:178-347 | every rendered step button moves one step, Next forward and Back backward, staying in 1..4 |
| Onboarding.PressAll | app/onboarding/page.tsx:178-347 | any sequence of presses from a step in 1..4 stays in 1..4 |
| Onboarding.NextBackUndo | app/onboarding/page.tsx:178-347 | Back after Next returns to the same step |
| Onboarding.StepsAreGradual | app/onboarding/page.tsx:178-347 | `k` presses move at most `k` steps |
| MealsPage.Contribution | app/dashboard/meals/page.tsx:40-43 | each macro of a meal counts as its value, or 0 when null |
| MealsPage.TodayTotals | app/dashboard/meals/page.tsx:38-46 | totals exist iff the meals were fetched; no meals give all zeros |
| MealsPage.SumTotalsAppend | app/dashboard/meals/page.tsx:38-46 | the totals of two runs of meals add up |
| MealsPage.SumTotalsAreColumnSums | app/dashboard/meals/page.tsx:38-46 | each daily total is the sum of its column over the meals, null counted as 0 |
| MealsPage.Groups | app/dashboard/meals/page.tsx:159-160 | four lists, one per meal type, each holding exactly the meals of that type in their order |
| MealsPage.GroupsPartition | app/dashboard/meals/page.tsx:159-160 | a meal of a listed type is listed under exactly one type; a meal of another type is not listed |
| MealsPage.GroupsCoverAll | app/dashboard/meals/page.tsx:159-160 | when every meal has a listed type, the four lists together hold every meal once |
| MealPlanPage.GeneratorInput | app/dashboard/meals/generate-plan/page.tsx:92-95 | the generator gets the page's dietary preferences with the profile's goal |
| MealPlanPage.GenerateOutcome | app/dashboard/meals/generate-plan/page.tsx:73-96 | no user: "Not authenticated"; no profile: the onboarding message; otherwise what the generator gives |
| MealPlanPage.MealsToInsert | app/dashboard/meals/generate-plan/page.tsx:144-156 | one row per meal in order, with the plan, user and today's date, `logged` false, and the meal's type, name, description and macros |
| MealPlanPage.MealsToInsertAppend | app/dashboard/meals/generate-plan/page.tsx:144-156 | the rows of two runs of meals are the rows of each, in order |
| MealPlanPage.Page.constructor | app/dashboard/meals/generate-plan/page.tsx:47-57 | the page starts in `preferences` with no plan, no error, no preferences and auto-start unused |
| MealPlanPage.Page.PreferenceChange | app/dashboard/meals/generate-plan/page.tsx:59-66 | toggles one dietary preference and changes nothing else |
| MealPlanPage.Page.StartGenerate | app/dashboard/meals/generate-plan/page.tsx:69-71 | enters `generating` with the flag set and the error cleared |
| MealPlanPage.Page.GenerateSettled | app/dashboard/meals/generate-plan/page.tsx:97-104 | success previews the plan; failure returns to `preferences` with the error's message; generation is over either way |
| MealPlanPage.Page.Generate | app/dashboard/meals/generate-plan/page.tsx:68-105 | the whole of `handleGenerate`: preview on success, back to `preferences` with the message on failure |
| MealPlanPage.Page.NewPlan | app/dashboard/meals/generate-plan/page.tsx:343-346 | clears the plan and returns to `preferences` |
| MealPlanPage.Page.AutoStart | app/dashboard/meals/generate-plan/page.tsx:171-177 | generation starts only with `auto=true`, from `preferences`, when it has not started before, and then never again |
| MealPlanPage.Page.SavePlan | app/dashboard/meals/generate-plan/page.tsx:107-168 | without a plan: no-op; without a user: "Not authenticated"; otherwise the plan is inserted, then `MealsToInsert` rows, and /dashboard/meals is opened iff both inserts succeed |
| JsonSpan.FirstIndex | app/api/generate-workout/route.ts:26 | the first position of a character from a start index, or none |
| JsonSpan.LastIndex | app/api/generate-workout/route.ts:26 | the last position of a character below a bound, or none |
| JsonSpan.MatchSpan | app/api/generate-workout/route.ts:26 | the span is a match that starts at or before every `{` and ends after every `}` of the text |
| JsonSpan.JsonMatch | app/api/generate-workout/route.ts:26-31 | the extracted text is a substring of the answer, at least two characters, starting with `{` and ending with `}` |
| JsonSpan.MatchGivesSpan | app/api/generate-workout/route.ts:26-29 | any match of the pattern means a span is found |
| JsonSpan.MatchSpanIsLeftmostLongest | app/api/generate-workout/route.ts:26 | no span iff the pattern has no match; the span starts no later and ends no earlier than any match |
| JsonSpan.NoMatchWithoutClosingBrace | app/api/generate-meal/route.ts:19-22 | a `{` with no `}` after it gives no match |
| GenerateWorkoutRoute.Details | app/api/generate-workout/route.ts:43 | the details are the message of an `Error`, else `String(error)` |
| GenerateWorkoutRoute.Post | app/api/generate-workout/route.ts:12-47 | the plan is answered iff the text came back, a span was found and it parsed; every failure is 500 "Failed to generate workout plan"; no span gives the details "Failed to parse workout plan from AI response" |
| GenerateWorkoutRoute.SurroundingTextIgnored | app/api/generate-workout/route.ts:26-31 | answers with the same JSON object get the same response, whatever text surrounds it |
| GenerateMealRoute.Post | app/api/generate-meal/route.ts:9-38 | the plan is answered iff the text came back, a span was found and it parsed; every failure is 500 "Failed to generate meal plan"; no span gives "No valid JSON found in response"; a non-`Error` gives "Unknown error" |
| Proxy.Decide | lib/supabase/proxy.ts:33-57 | signed in, on /dashboard, no onboarding record: to /onboarding; signed out on /dashboard or /onboarding: to /auth/login; every other request passes, and only those |
| Proxy.PrefixesExclusive | lib/supabase/proxy.ts:33-40 | no path starts with both /dashboard and /onboarding, so the inner onboarding test always holds |
| Proxy.SignedInReachesOnboarding | lib/supabase/proxy.ts:33-40 | a signed-in user is never redirected from /onboarding |
| Proxy.RedirectTargetsPass | lib/supabase/proxy.ts:40-55 | a redirect target is never redirected again |

## Left out

- Storage, authentication and AI calls: the Supabase queries, inserts and updates, `getUser`, `generateText`, `fetch` and `JSON.parse`. Their answers are parameters.
- Failures of individual storage calls in the tracker's `handleCompleteWorkout` (session, log, workout and exercise updates, lines 118-170) and the "Failed to save workout" message. `CompleteWorkout` models only the missing-user failure.
- Rendering: JSX, styling, the progress percentages (components/workout-timer.tsx:67, 157), the macro progress bars, `isSaving`/`isLoading` flags and disabled states.
- Real time: `setInterval` becomes the explicit `Tick` method. Interleavings of asynchronous handlers with other events are not modelled; every handler runs to completion before the next event.
- Floating point: numbers are integers. `Math.round` is applied to the exact quotient, not to a rounded floating-point one.
- WorkoutTimer.Timer.EditWeight: the weight input uses `parseFloat`, which accepts decimals; the model parses an integer prefix, 0 on bad input.
- Text.ParseIntOrZero: leading whitespace, which `parseInt` skips, is not skipped; number inputs do not produce it.
- Dates and time zones: a date is a day number. The calendar's local date key and the UTC `toISOString()` date are the same day in the model. Month names and `toLocaleString` headers are left out.
- WorkoutTracker.SeedLog: the fields of a previous log are taken as present. A previous log with a null field would fall back to the plan through `??`; the model does not capture that.
- WorkoutTracker.CompletedIds: the order of `Object.entries` is taken to be the order of the exercises. JavaScript lists integer-like keys first, and that ordering is not modelled.
- WorkoutTimer.Timer.constructor: requires at least one exercise. Every read of the current exercise is guarded (components/workout-timer.tsx:60-63, 229). On an empty list the count test at lines 64-65 holds on the empty map, so effect 1 moves to `summary` and the page shows "0 exercises finished". The model's `Current()` needs an exercise to name, so that case is excluded.
- GeneratePlan.HandleSavePlan: the page's own error mapping for non-`Error` objects (app/dashboard/generate-plan/page.tsx:297-302) and storage errors are not modelled; only the errors thrown before the loop and the invalid date are.
- GeneratePlan.HandleSavePlan: the plan row, the workout rows and the exercise rows written at app/dashboard/generate-plan/page.tsx:200-283 are not returned; only the dates the workout rows would carry are.
- MealPlanPage.Page.SavePlan: the update that deactivates the user's existing plans (app/dashboard/meals/generate-plan/page.tsx:122) and the fields of the new plan row (lines 125-136) are not returned; only whether the plan insert is reached, and the meal rows.
- Generation routes: the `hasKey`/`hasApiKey` flag (it reads the environment), the timestamp and random seed added to the prompt, and logging.
- The cookie plumbing of lib/supabase/proxy.ts:9-30.

## Findings

| source | as written | input that shows it | evidently intended | confidence | as-written member | corrected member |
|---|---|---|---|---|---|---|
| components/workout-timer.tsx:69-84, 114-123 | `handleNextExercise` on the last exercise marks it complete and sets `summary`. The completion changes effect 1's dependencies, so effect 1 runs again. Its `phase !== "summary"` test is now false, so it falls through and sets `logging` at set 1. | A workout whose other exercises are all complete. Press "Next" on the last exercise while it is still incomplete. The page returns to `logging` instead of showing the summary. A second press shows it, because the completion no longer changes. | Once every exercise is complete, effect 1 keeps or enters `summary` and re-syncs nothing else. | not executed | WorkoutTimer.FinishOnLastAsWritten | WorkoutTimer.FinishOnLastIntended |

The class `WorkoutTimer.Timer` keeps the behaviour as written: its
`NextExercise` contract gives the clock as both effects applied to the
handler's `summary`, and `WorkoutTimer.LastExerciseSettles` shows that this
is `logging` at set 1 whenever the click completed the last exercise. The corrected
re-sync is `WorkoutTimer.ResyncIntended`, and `WorkoutTimer.SettledIntended`
settles with it. `WorkoutTimer.ResyncIntendedProperties` proves that the
corrected re-sync makes the summary absorbing and agrees with the written
one in every other case.
