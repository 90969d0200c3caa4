/** The weekly schedule of components/workout-calendar.tsx: the week it
    shows, its navigation, the seven days of the week, which workouts a
    day lists, and the name a workout is listed under. */
module WorkoutCalendar {
  import opened Types
  import opened Text
  import opened Dates
  import opened Lists

  /** A workout as the calendar receives it (lines 9-16). */
  datatype Workout = Workout(id: string, dayNumber: int, name: string, scheduledDate: Option<string>, completed: bool)

  /** Moving the week start by `weeks` weeks (`setDate(getDate() ± 7)`). */
  function ShiftWeek(start: int, weeks: int): (s: int)
    ensures s - start == 7 * weeks
    ensures Weekday(s) == Weekday(start)
  {
    WeekdayAdd(start, 7 * weeks);
    start + 7 * weeks
  }

  /** The week shown. */
  class WeekView {
    var currentWeekStart: int

    /** The initial week (lines 24-29): today minus its weekday, a Sunday
        no more than six days back. */
    constructor (today: int)
      ensures currentWeekStart == WeekStart(today)
      ensures Weekday(currentWeekStart) == 0 && today - 6 <= currentWeekStart <= today
    {
      currentWeekStart := WeekStart(today);
    }

    /** `previousWeek` (lines 31-37). */
    method PreviousWeek()
      modifies this
      ensures currentWeekStart == ShiftWeek(old(currentWeekStart), -1)
      ensures currentWeekStart == old(currentWeekStart) - 7
    {
      currentWeekStart := currentWeekStart - 7;
    }

    /** `nextWeek` (lines 39-45). */
    method NextWeek()
      modifies this
      ensures currentWeekStart == ShiftWeek(old(currentWeekStart), 1)
      ensures currentWeekStart == old(currentWeekStart) + 7
    {
      currentWeekStart := currentWeekStart + 7;
    }

    /** `getWeekDays` (lines 47-55): the loop pushes the week start plus
        0 to 6 days. */
    method GetWeekDays() returns (days: seq<int>)
      ensures days == WeekOf(currentWeekStart)
      ensures |days| == 7 && days[0] == currentWeekStart
      ensures forall i :: 0 < i < 7 ==> days[i] == days[i - 1] + 1
    {
      days := [];
      var i := 0;
      while i < 7
        invariant 0 <= i <= 7
        invariant |days| == i
        invariant forall k :: 0 <= k < i ==> days[k] == currentWeekStart + k
      {
        days := days + [currentWeekStart + i];
        i := i + 1;
      }
    }
  }

  /** Going back a week and forward again, or forward and back, returns to
      the same week. */
  lemma WeekNavigationInverse(start: int)
    ensures ShiftWeek(ShiftWeek(start, -1), 1) == start
    ensures ShiftWeek(ShiftWeek(start, 1), -1) == start
  {
  }

  /** The date key of a day (line 74). */
  function DayKey(d: int): string {
    LocalDateString(CivilOf(d))
  }

  /** A date key names one day only (for years from 0 on, which print
      without a sign): a scheduled date matches a single day. */
  lemma DayKeyDeterminesDay(d1: int, d2: int)
    requires CivilOf(d1).year >= 0 && CivilOf(d2).year >= 0
    ensures DayKey(d1) == DayKey(d2) <==> d1 == d2
  {
    if DayKey(d1) == DayKey(d2) {
      LocalDateStringRoundTrip(CivilOf(d1));
      LocalDateStringRoundTrip(CivilOf(d2));
      CivilOfInverse(d1);
      CivilOfInverse(d2);
    }
  }

  /** The part of a name before the first " - ", or the whole name. */
  function DayPrefix(name: string): string {
    Split(name, " - ")[0]
  }

  /** The filter of `getWorkoutsForDate` (lines 77-86). */
  predicate Matches(w: Workout, d: int) {
    w.scheduledDate == Some(DayKey(d)) || WeekdayOfName(DayPrefix(w.name)) == Some(Weekday(d))
  }

  /** `getWorkoutsForDate` (lines 73-87): the workouts that match the day
      by scheduled date or by weekday name, in their original order. */
  function WorkoutsForDate(workouts: seq<Workout>, d: int): (r: seq<Workout>)
    ensures forall w :: w in r <==> w in workouts && Matches(w, d)
    ensures IsSubsequence(r, workouts)
  {
    FilterIsSubsequence(workouts, w => Matches(w, d));
    Filter(workouts, w => Matches(w, d))
  }

  /** A workout named "<Weekday> - …" is listed on every day with that
      weekday, in every week, whatever its scheduled date. */
  lemma WeekdayNamedRecurs(workouts: seq<Workout>, w: Workout, d: int, weeks: int)
    requires w in workouts && WeekdayOfName(DayPrefix(w.name)) == Some(Weekday(d))
    ensures w in WorkoutsForDate(workouts, d + 7 * weeks)
  {
    var later := ShiftWeek(d, weeks);
    assert later == d + 7 * weeks;
    assert Weekday(later) == Weekday(d);
    NamedMatches(w, later);
    ListedWhenMatches(workouts, w, later);
  }

  lemma ListedWhenMatches(workouts: seq<Workout>, w: Workout, d: int)
    requires w in workouts && Matches(w, d)
    ensures w in WorkoutsForDate(workouts, d)
  {
  }

  lemma NamedMatches(w: Workout, d: int)
    requires WeekdayOfName(DayPrefix(w.name)) == Some(Weekday(d))
    ensures Matches(w, d)
  {
  }

  /** A workout whose name has no weekday prefix is listed on a day only
      through its scheduled date. */
  lemma UnnamedNeedsDate(workouts: seq<Workout>, w: Workout, d: int)
    requires w in workouts && WeekdayOfName(DayPrefix(w.name)) == None
    ensures w in WorkoutsForDate(workouts, d) <==> w.scheduledDate == Some(DayKey(d))
  {
  }

  /** The display name (lines 152-154): the name after the first " - "
      when there is one, otherwise the whole name. */
  function DisplayName(name: string): string {
    if Contains(name, " - ") then AfterFirst(name, " - ") else name
  }

  /** Stripping loses nothing: the prefix, " - " and the display name put
      back together give the name; a name without " - " is shown as is. */
  lemma DisplayNameDecomposes(name: string)
    ensures Contains(name, " - ") ==> DayPrefix(name) + " - " + DisplayName(name) == name
    ensures !Contains(name, " - ") ==> DisplayName(name) == name && DayPrefix(name) == name
  {
    SplitShape(name, " - ");
    if Contains(name, " - ") {
      AfterFirstDecomposes(name, " - ");
    }
  }
}
