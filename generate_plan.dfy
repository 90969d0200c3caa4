/** The plan page of app/dashboard/generate-plan/page.tsx: the order in
    which a loaded plan is shown, and the dates that saving a generated
    plan gives its workouts. Storage calls are left out; saving returns
    the dates the workout rows would carry. */
module GeneratePlan {
  import opened Types
  import opened Dates
  import opened Lists
  import Js

  datatype PlanExercise = PlanExercise(
    id: string,
    name: string,
    sets: Option<int>,
    reps: Option<string>,
    durationMinutes: Option<int>,
    restSeconds: Option<int>,
    notes: Option<string>,
    /** Absent on a loaded plan: the query (lines 80-93) does not select it. */
    orderIndex: Option<int>)

  datatype PlanWorkout = PlanWorkout(id: string, dayNumber: int, name: string, exercises: seq<PlanExercise>)

  datatype Plan = Plan(id: string, name: string, description: string, workouts: seq<PlanWorkout>)

  function DayNumberOf(w: PlanWorkout): int {
    w.dayNumber
  }

  /** `order_index ?? 0`. */
  function OrderKey(e: PlanExercise): int {
    e.orderIndex.GetOr(0)
  }

  function SortExercises(w: PlanWorkout): (r: PlanWorkout)
    ensures r.id == w.id && r.dayNumber == w.dayNumber && r.name == w.name
    ensures SortedBy(r.exercises, OrderKey) && multiset(r.exercises) == multiset(w.exercises)
  {
    w.(exercises := SortByKey(w.exercises, OrderKey))
  }

  /** The workout as it was loaded, up to the order of its exercises. */
  predicate SameWorkout(a: PlanWorkout, b: PlanWorkout) {
    a.id == b.id && a.dayNumber == b.dayNumber && a.name == b.name && multiset(a.exercises) == multiset(b.exercises)
  }

  /** Sorts the exercises of every workout, keeping the workouts in place. */
  function SortEach(ws: seq<PlanWorkout>): (r: seq<PlanWorkout>)
    ensures |r| == |ws|
    ensures forall i :: 0 <= i < |r| ==> r[i] == SortExercises(ws[i])
  {
    MapEach(ws, SortExercises)
  }

  /** The sorting of a loaded plan (lines 103-113): workouts ascending by
      day number, each workout's exercises ascending by order index with a
      missing one counted as 0. */
  function SortPlan(p: Plan): (r: Plan)
    ensures r.id == p.id && r.name == p.name && r.description == p.description
    ensures |r.workouts| == |p.workouts|
    ensures SortedBy(r.workouts, DayNumberOf)
    ensures forall i :: 0 <= i < |r.workouts| ==> SortedBy(r.workouts[i].exercises, OrderKey)
  {
    var byDay := SortByKey(p.workouts, DayNumberOf);
    var ws := SortEach(byDay);
    assert forall i :: 0 <= i < |ws| ==> DayNumberOf(ws[i]) == DayNumberOf(byDay[i]);
    p.(workouts := ws)
  }

  /** Every workout shown is a loaded one, with the same exercises. */
  lemma SortPlanShowsLoadedWorkouts(p: Plan, i: int)
    requires 0 <= i < |SortPlan(p).workouts|
    ensures exists j :: 0 <= j < |p.workouts| && SameWorkout(SortPlan(p).workouts[i], p.workouts[j])
  {
    var byDay := SortByKey(p.workouts, DayNumberOf);
    assert SortPlan(p).workouts[i] == SortExercises(byDay[i]);
    assert byDay[i] in multiset(p.workouts);
    var j :| 0 <= j < |p.workouts| && p.workouts[j] == byDay[i];
    assert SameWorkout(SortPlan(p).workouts[i], p.workouts[j]);
  }

  /** The workouts shown are the loaded ones, each with its exercises
      sorted, each as many times as it was loaded. */
  lemma SortPlanPermutes(p: Plan)
    ensures multiset(SortPlan(p).workouts) == multiset(SortEach(p.workouts))
  {
    var byDay := SortByKey(p.workouts, DayNumberOf);
    assert SortPlan(p).workouts == MapEach(byDay, SortExercises);
    MapEachPermutes(byDay, p.workouts, SortExercises);
  }

  /** Every loaded workout is shown, with the same exercises. */
  lemma LoadedWorkoutsShown(p: Plan, j: int)
    requires 0 <= j < |p.workouts|
    ensures exists i :: 0 <= i < |SortPlan(p).workouts| && SameWorkout(SortPlan(p).workouts[i], p.workouts[j])
  {
    var shown := SortPlan(p).workouts;
    var w := SortExercises(p.workouts[j]);
    SortPlanPermutes(p);
    assert SortEach(p.workouts)[j] == w;
    assert w in multiset(shown);
    var i :| 0 <= i < |shown| && shown[i] == w;
    assert SameWorkout(shown[i], p.workouts[j]);
  }

  /** The loaded exercises carry no order index, so the exercise sort
      keeps them in the order they were loaded. */
  lemma LoadedExercisesKeepOrder(es: seq<PlanExercise>)
    requires forall i :: 0 <= i < |es| ==> es[i].orderIndex == None
    ensures SortByKey(es, OrderKey) == es
  {
    SortSortedIsIdentity(es, OrderKey);
  }

  /** Workouts on the same day keep their loaded order. */
  lemma SameDayKeepsOrder(p: Plan, day: int)
    ensures Filter(SortByKey(p.workouts, DayNumberOf), KeyIs(DayNumberOf, day)) == Filter(p.workouts, KeyIs(DayNumberOf, day))
  {
    SortIsStable(p.workouts, DayNumberOf, day);
  }

  // ----- Scheduling (lines 197-256) -----

  /** `onboardingData.available_days as unknown as string[] || []`: the
      profile stores a number of days, which the cast leaves a number. */
  datatype AvailableDays = DayNames(names: seq<string>) | DayCount(count: int)

  /** Inherited members of a plain object, which `dayMap[name]` finds
      although they are not weekday entries. */
  const ObjectPrototypeKeys: set<string> := {
    "constructor", "__proto__", "hasOwnProperty", "isPrototypeOf", "propertyIsEnumerable",
    "toString", "valueOf", "toLocaleString",
    "__defineGetter__", "__defineSetter__", "__lookupGetter__", "__lookupSetter__"}

  /** The date a workout is scheduled on: none, a day, or an invalid
      date whose `toISOString()` throws. */
  datatype Slot = NoDate | OnDay(day: int) | InvalidDate

  /** `(day_number - 1) % availableDays.length` (line 237). */
  function DaySlot(dayNumber: int, n: int): (i: int)
    requires n > 0
    ensures -n < i < n
    ensures dayNumber >= 1 ==> i == (dayNumber - 1) % n
  {
    Js.Rem(dayNumber - 1, n)
  }

  /** Day numbers beyond the number of days wrap round the list. */
  lemma DaySlotWraps(dayNumber: int, n: int)
    requires n > 0 && dayNumber >= 1
    ensures 0 <= DaySlot(dayNumber, n) < n
    ensures DaySlot(dayNumber + n, n) == DaySlot(dayNumber, n)
  {
    var a := dayNumber - 1;
    var q := a / n;
    assert a == q * n + a % n;
    assert a + n == (q + 1) * n + a % n;
    ModUnique(a + n, n, q + 1, a % n);
  }

  lemma ModUnique(a: int, n: int, q: int, r: int)
    requires n > 0 && 0 <= r < n && a == q * n + r
    ensures a % n == r
  {
    var k := q - a / n;
    assert k * n == a % n - r;
    assert k >= 1 ==> k * n >= n;
    assert k <= -1 ==> k * n <= -n;
  }

  /** `daysUntil` (lines 246-250). */
  function DaysUntil(target: int, current: int): (r: int)
    requires 0 <= target < 7 && 0 <= current < 7
    ensures 0 <= r <= 6
    ensures r == 0 <==> target == current
    ensures (current + r) % 7 == target
  {
    var diff := target - current;
    if diff < 0 then diff + 7 else diff
  }

  /** The scheduled day of one workout (lines 233-255). */
  function ScheduledDay(dayNumber: int, days: AvailableDays, today: int): Slot {
    match days
    case DayCount(_) => NoDate
    case DayNames(names) =>
      if |names| == 0 then NoDate
      else
        var i := DaySlot(dayNumber, |names|);
        if i < 0 then NoDate
        else
          var name := names[i];
          if name == "" then NoDate
          else if WeekdayOfName(name).Some? then OnDay(today + DaysUntil(WeekdayOfName(name).value, Weekday(today)))
          else if name in ObjectPrototypeKeys then InvalidDate
          else NoDate
  }

  /** A scheduled day lies in the coming week, today included, on the
      weekday its slot names; it is today exactly when that weekday is
      today's. */
  lemma ScheduledDayOnWeekday(dayNumber: int, names: seq<string>, today: int)
    requires |names| > 0 && ScheduledDay(dayNumber, DayNames(names), today).OnDay?
    ensures var i := DaySlot(dayNumber, |names|);
      var d := ScheduledDay(dayNumber, DayNames(names), today).day;
      && 0 <= i < |names|
      && today <= d <= today + 6
      && WeekdayOfName(names[i]) == Some(Weekday(d))
      && (d == today <==> WeekdayOfName(names[i]) == Some(Weekday(today)))
  {
    var i := DaySlot(dayNumber, |names|);
    var w := WeekdayOfName(names[i]).value;
    WeekdayNamesBijective(names[i], w);
    var k := DaysUntil(w, Weekday(today));
    WeekdayAdd(today, k);
  }

  /** No date without a list of day names, with an empty list, or for a
      slot that names no weekday. */
  lemma NoDateCases(dayNumber: int, days: AvailableDays, today: int)
    ensures days.DayCount? ==> ScheduledDay(dayNumber, days, today) == NoDate
    ensures days.DayNames? && |days.names| == 0 ==> ScheduledDay(dayNumber, days, today) == NoDate
    ensures days.DayNames? && |days.names| > 0 && dayNumber >= 1 ==>
      var name := days.names[DaySlot(dayNumber, |days.names|)];
      WeekdayOfName(name) == None && name !in ObjectPrototypeKeys ==> ScheduledDay(dayNumber, days, today) == NoDate
  {
  }

  /** `date.toISOString().split('T')[0]` of a scheduled day; time zones
      are left out. */
  function DateString(d: int): string {
    IsoDateString(CivilOf(d))
  }

  /** The `scheduled_date` a workout row gets, or `None` for null. */
  function StoredDate(s: Slot): Option<string>
    requires !s.InvalidDate?
  {
    if s.OnDay? then Some(DateString(s.day)) else None
  }

  /** The message of the `RangeError` that `toISOString()` throws. */
  const InvalidTimeValue := "Invalid time value"

  /** `dates` are the stored dates of the first `|dates|` workouts, none
      of which has an invalid date. */
  ghost predicate DatesFor(workouts: seq<PlanWorkout>, days: AvailableDays, today: int, dates: seq<Option<string>>) {
    |dates| <= |workouts| &&
    forall k :: 0 <= k < |dates| ==>
      !ScheduledDay(workouts[k].dayNumber, days, today).InvalidDate?
      && dates[k] == StoredDate(ScheduledDay(workouts[k].dayNumber, days, today))
  }

  lemma DatesForSnoc(workouts: seq<PlanWorkout>, days: AvailableDays, today: int, dates: seq<Option<string>>, slot: Slot)
    requires DatesFor(workouts, days, today, dates) && |dates| < |workouts|
    requires slot == ScheduledDay(workouts[|dates|].dayNumber, days, today) && !slot.InvalidDate?
    ensures DatesFor(workouts, days, today, dates + [StoredDate(slot)])
  {
    var next := dates + [StoredDate(slot)];
    forall k | 0 <= k < |next|
      ensures !ScheduledDay(workouts[k].dayNumber, days, today).InvalidDate?
        && next[k] == StoredDate(ScheduledDay(workouts[k].dayNumber, days, today))
    {
      if k < |dates| {
        assert next[k] == dates[k];
      }
    }
  }

  /** The loop of lines 231-289: the dates of the workouts handled in
      order, up to the first one whose date is invalid, which ends the
      loop with its error. */
  method ScheduleWorkouts(workouts: seq<PlanWorkout>, days: AvailableDays, today: int)
    returns (dates: seq<Option<string>>, failure: Option<string>)
    ensures DatesFor(workouts, days, today, dates)
    ensures failure == None <==> |dates| == |workouts|
    ensures failure.Some? ==>
      failure == Some(InvalidTimeValue) && ScheduledDay(workouts[|dates|].dayNumber, days, today).InvalidDate?
  {
    dates := [];
    failure := None;
    var i := 0;
    while i < |workouts|
      invariant i == |dates| && DatesFor(workouts, days, today, dates)
    {
      var slot := ScheduledDay(workouts[i].dayNumber, days, today);
      if slot.InvalidDate? {
        failure := Some(InvalidTimeValue);
        return;
      }
      DatesForSnoc(workouts, days, today, dates, slot);
      dates := dates + [StoredDate(slot)];
      i := i + 1;
    }
  }

  /** What saving a generated plan leads to. */
  datatype SaveOutcome =
    | NothingToSave
    | Saved(dates: seq<Option<string>>)
    | Failed(dates: seq<Option<string>>, message: string)

  /** `handleSavePlan` (lines 170-307) with the storage calls left out:
      nothing happens without a generated plan; otherwise the user and the
      profile must be there, and the workouts get their dates. */
  method HandleSavePlan(generated: Option<Plan>, userSignedIn: bool, profile: Option<AvailableDays>, today: int)
    returns (outcome: SaveOutcome)
    ensures generated == None ==> outcome == NothingToSave
    ensures generated.Some? && !userSignedIn ==> outcome == Failed([], "Not authenticated")
    ensures generated.Some? && userSignedIn && profile == None ==> outcome == Failed([], "Could not fetch profile settings")
    ensures generated.Some? && userSignedIn && profile.Some? ==>
      (outcome.Saved? || outcome.Failed?)
      && |outcome.dates| <= |generated.value.workouts|
      && (outcome.Saved? ==> |outcome.dates| == |generated.value.workouts|)
      && (outcome.Failed? ==> outcome.message == InvalidTimeValue)
      && (outcome.Failed? ==>
            |outcome.dates| < |generated.value.workouts| &&
            ScheduledDay(generated.value.workouts[|outcome.dates|].dayNumber, profile.value, today).InvalidDate?)
      && forall i :: 0 <= i < |outcome.dates| ==>
           !ScheduledDay(generated.value.workouts[i].dayNumber, profile.value, today).InvalidDate? &&
           outcome.dates[i] == StoredDate(ScheduledDay(generated.value.workouts[i].dayNumber, profile.value, today))
  {
    if generated == None {
      return NothingToSave;
    }
    if !userSignedIn {
      return Failed([], "Not authenticated");
    }
    if profile == None {
      return Failed([], "Could not fetch profile settings");
    }
    var dates, failure := ScheduleWorkouts(generated.value.workouts, profile.value, today);
    if failure == None {
      outcome := Saved(dates);
    } else {
      outcome := Failed(dates, failure.value);
    }
  }

  /** The number the profile really stores never yields a date. */
  lemma CountOfDaysNeverSchedules(dayNumber: int, count: int, today: int)
    ensures ScheduledDay(dayNumber, DayCount(count), today) == NoDate
  {
  }
}
