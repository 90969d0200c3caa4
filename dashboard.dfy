/** The statistics and the week strip of the dashboard page: how many
    workouts of the active plan are done, the completion percentage, the
    seven days of the current week and the label of each workout's button. */
module Dashboard {
  import opened Types
  import opened Lists
  import opened Dates
  import Js
  import opened WorkoutCalendar

  /** `workouts?.length || 0`: no result set counts as no workouts. */
  function TotalWorkouts(workouts: Option<seq<Workout>>): (n: nat)
    ensures workouts.None? ==> n == 0
    ensures workouts.Some? ==> n == |workouts.value|
  {
    if workouts.Some? then |workouts.value| else 0
  }

  function IsCompleted(w: Workout): bool {
    w.completed
  }

  /** `workouts?.filter((w) => w.completed).length || 0`. */
  function CompletedWorkouts(workouts: Option<seq<Workout>>): (n: nat)
    ensures n <= TotalWorkouts(workouts)
    ensures workouts.Some? ==> (n == TotalWorkouts(workouts) <==> forall w :: w in workouts.value ==> w.completed)
    ensures workouts.Some? ==> (n == 0 <==> forall w :: w in workouts.value ==> !w.completed)
  {
    if workouts.Some? then
      FilterKeepsAllIff(workouts.value, IsCompleted);
      var done := Filter(workouts.value, IsCompleted);
      assert done == [] <==> forall w :: w in workouts.value ==> !w.completed by {
        if done != [] {
          assert done[0] in done;
        }
      }
      |done|
    else 0
  }

  lemma MulLtCancel(u: int, a: int, b: int)
    requires u > 0 && u * a < u * b
    ensures a < b
  {
    assert a >= b ==> u * a >= u * b;
  }

  /** The rounded percentage of `c` out of `t`: between 0 and 100, 100 when
      all are counted and 0 when none is, and 100 exactly when `c` is at
      least 99.5% of `t`. */
  lemma PercentBounds(c: int, t: int)
    requires 0 <= c <= t && t > 0
    ensures 0 <= Js.RoundDiv(100 * c, t) <= 100
    ensures c == t ==> Js.RoundDiv(100 * c, t) == 100
    ensures c == 0 ==> Js.RoundDiv(100 * c, t) == 0
    ensures Js.RoundDiv(100 * c, t) == 100 <==> 200 * c >= 199 * t
  {
    var r := Js.RoundDiv(100 * c, t);
    var u := 2 * t;
    assert u * r <= 200 * c + t < u * (r + 1);
    assert u * 101 == 202 * t && u * 100 == 200 * t && u * 1 == 2 * t && u * 0 == 0;
    MulLtCancel(u, r, 101);
    MulLtCancel(u, 0, r + 1);
    if 200 * c >= 199 * t {
      MulLtCancel(u, 100, r + 1);
    }
    if c == 0 {
      MulLtCancel(u, r, 1);
    }
  }

  /** `totalWorkouts > 0 ? Math.round((completedWorkouts / totalWorkouts) * 100) : 0`:
      the percentage of completed workouts, rounded to the nearest integer
      with halves rounded up. */
  function CompletionRate(workouts: Option<seq<Workout>>): (rate: int)
    ensures 0 <= rate <= 100
    ensures TotalWorkouts(workouts) == 0 ==> rate == 0
    ensures TotalWorkouts(workouts) > 0 ==>
      var t, c := TotalWorkouts(workouts), CompletedWorkouts(workouts);
      2 * t * rate <= 200 * c + t < 2 * t * (rate + 1)
  {
    var t, c := TotalWorkouts(workouts), CompletedWorkouts(workouts);
    if t > 0 then
      PercentBounds(c, t);
      Js.RoundDiv(100 * c, t)
    else 0
  }

  /** When every workout is done the rate is 100, and when none is it is 0. */
  lemma CompletionRateExtremes(workouts: Option<seq<Workout>>)
    requires TotalWorkouts(workouts) > 0
    ensures (forall w :: w in workouts.value ==> w.completed) ==> CompletionRate(workouts) == 100
    ensures (forall w :: w in workouts.value ==> !w.completed) ==> CompletionRate(workouts) == 0
  {
    PercentBounds(CompletedWorkouts(workouts), TotalWorkouts(workouts));
  }

  /** The rate shows 100 exactly when at least 99.5% of the workouts are
      done, so it can show 100 before the last one is. */
  lemma CompletionRateHundredIff(workouts: Option<seq<Workout>>)
    requires TotalWorkouts(workouts) > 0
    ensures CompletionRate(workouts) == 100
        <==> 200 * CompletedWorkouts(workouts) >= 199 * TotalWorkouts(workouts)
  {
    PercentBounds(CompletedWorkouts(workouts), TotalWorkouts(workouts));
  }

  /** 199 of 200 workouts done already reads as 100%. */
  lemma HundredBeforeAllDone(workouts: Option<seq<Workout>>)
    requires TotalWorkouts(workouts) == 200 && CompletedWorkouts(workouts) == 199
    ensures CompletionRate(workouts) == 100
    ensures exists w :: w in workouts.value && !w.completed
  {
    CompletionRateHundredIff(workouts);
  }

  /** `weekDays`: the seven days from today's Sunday week start. */
  function WeekDays(today: int): (days: seq<int>)
    ensures |days| == 7
    ensures days[0] == today - Weekday(today)
    ensures forall i :: 0 <= i < 7 ==> days[i] == days[0] + i && Weekday(days[i]) == i
    ensures today in days
  {
    var start := WeekStart(today);
    WeekOfWeekdays(start);
    assert WeekOf(start)[Weekday(today)] == today;
    WeekOf(start)
  }

  /** The label of a workout's button. */
  function ActionLabel(w: Workout): (caption: string)
    ensures caption == "Redo" <==> w.completed
    ensures caption == "Start" <==> !w.completed
  {
    if w.completed then "Redo" else "Start"
  }
}
