/** The guided workout state machine of components/workout-timer.tsx.

    The component's six `useState` values (lines 52-57) are the fields of
    class `Timer`; the completion map, the logs and the exercise index it
    receives as props belong to the `Tracker` object it holds. Every
    handler is a method. The interval of the second effect becomes the
    explicit `Tick` method, and the two effects run as explicit steps at
    the end of each event:

    - effect 1 (lines 69-84) runs when its dependencies (exercise index,
      current exercise completed, all exercises completed) differ from the
      ones it last ran with, which the field `seen` remembers;
    - the expiry branch of effect 2 (lines 93-101) runs when its condition
      holds: no time left, running, and resting.

    The pure functions below (`Handle`, `Step`, `Resync`, `Settled`) are
    what the methods are proved against; the lemmas state what the
    component promises about them. */
module WorkoutTimer {
  import opened Types
  import opened Text
  import Js
  import opened WorkoutTracker

  /** Line 40. */
  datatype Phase = Ready | Exercising | Resting | Logging | Summary

  /** The timer part of the component state: phase, remaining rest
      seconds, whether the countdown runs, and the set number. */
  datatype Clock = Clock(phase: Phase, timeRemaining: int, isRunning: bool, currentSet: int)

  /** `currentExercise?.sets || 1` (line 62). */
  function TotalSets(e: Exercise): int {
    Js.Or(e.sets, 1)
  }

  /** `currentExercise?.rest_seconds || 60` (line 63): never zero. */
  function RestSeconds(e: Exercise): (r: int)
    ensures r != 0
    ensures r == 60 <==> e.restSeconds == None || e.restSeconds.value == 0 || e.restSeconds.value == 60
  {
    Js.Or(e.restSeconds, 60)
  }

  /** The number of sets the counter can reach: at least one, since the
      first set is always offered. */
  function SetLimit(e: Exercise): (n: int)
    ensures n >= 1 && n >= TotalSets(e)
  {
    if TotalSets(e) >= 1 then TotalSets(e) else 1
  }

  // ----- Effect 1: re-sync on exercise change -----

  /** The dependencies of effect 1 (line 84). */
  datatype Deps = Deps(index: int, currentCompleted: bool, allCompleted: bool)

  /** `allExercisesCompleted` (lines 64-65): the map has as many entries
      as there are exercises, and every entry is true. */
  predicate AllCompletedByCount(exs: seq<Exercise>, m: map<string, bool>) {
    |m.Keys| == |exs| && forall id {:trigger m[id]} :: id in m ==> m[id]
  }

  function DepsOf(exs: seq<Exercise>, index: int, m: map<string, bool>): Deps
    requires 0 <= index < |exs|
  {
    Deps(index, IsMarked(m, exs[index].id), AllCompletedByCount(exs, m))
  }

  lemma {:induction false} DistinctIdsCount(exs: seq<Exercise>)
    requires DistinctIds(exs)
    ensures |Ids(exs)| == |exs|
  {
    if exs != [] {
      var tail := exs[1..];
      assert DistinctIds(tail) by {
        forall i, j | 0 <= i < j < |tail| ensures tail[i].id != tail[j].id {
          assert tail[i] == exs[i + 1] && tail[j] == exs[j + 1];
        }
      }
      DistinctIdsCount(tail);
      forall e | e in tail ensures e.id != exs[0].id {
        var j :| 0 <= j < |tail| && tail[j] == e;
        assert exs[j + 1] == e;
      }
      assert exs[0].id !in Ids(tail);
      assert exs == [exs[0]] + tail;
      assert Ids(exs) == {exs[0].id} + Ids(tail);
    }
  }

  /** On the tracker's completion map (one entry per exercise id) the
      timer's count-and-every test means what the tracker's `every` test
      means: every exercise is marked complete. */
  lemma CountTestAgrees(exs: seq<Exercise>, m: map<string, bool>)
    requires DistinctIds(exs) && m.Keys == Ids(exs)
    ensures AllCompletedByCount(exs, m) <==> AllCompleted(exs, m)
  {
    DistinctIdsCount(exs);
    if AllCompleted(exs, m) {
      forall id | id in m ensures m[id] {
        var e :| e in exs && e.id == id;
        var i :| 0 <= i < |exs| && exs[i] == e;
        assert IsMarked(m, exs[i].id);
      }
    }
    if AllCompletedByCount(exs, m) {
      forall i | 0 <= i < |exs| ensures IsMarked(m, exs[i].id) {
        assert exs[i].id in Ids(exs);
      }
    }
  }

  /** The body of effect 1 (lines 69-84), as written: when everything is
      complete and the phase is not yet `summary` it moves to `summary`;
      otherwise, and that includes a phase that already is `summary`, it
      restarts the exercise at set 1, in `logging` for a completed
      exercise and `ready` for another, with the countdown stopped. */
  function Resync(c: Clock, d: Deps): Clock {
    if d.allCompleted && c.phase != Summary then c.(phase := Summary)
    else Clock(if d.currentCompleted then Logging else Ready, 0, false, 1)
  }

  /** Re-sync shows the summary exactly when it found everything complete
      outside the summary; a summary that is showing never survives it. */
  lemma ResyncSummary(c: Clock, d: Deps)
    ensures Resync(c, d).phase == Summary <==> d.allCompleted && c.phase != Summary
    ensures Resync(c, d).phase != Summary ==>
      Resync(c, d).currentSet == 1 && !Resync(c, d).isRunning && Resync(c, d).timeRemaining == 0
    ensures Resync(c, d).phase != Summary ==> (Resync(c, d).phase == Logging <==> d.currentCompleted)
  {
  }

  /** The evidently intended re-sync: once everything is complete the
      effect keeps or enters `summary` and stops there. */
  function ResyncIntended(c: Clock, d: Deps): Clock {
    if d.allCompleted then c.(phase := Summary)
    else Clock(if d.currentCompleted then Logging else Ready, 0, false, 1)
  }

  /** The intended re-sync makes the summary absorbing once all exercises
      are complete, and agrees with the written one in every other case. */
  lemma ResyncIntendedProperties(c: Clock, d: Deps)
    ensures d.allCompleted ==> ResyncIntended(c, d).phase == Summary
    ensures !d.allCompleted ==> ResyncIntended(c, d) == Resync(c, d)
    ensures c.phase != Summary ==> ResyncIntended(c, d) == Resync(c, d)
  {
  }

  // ----- Effect 2: the rest countdown -----

  /** The condition of the expiry branch (line 93). */
  predicate ExpiryPending(c: Clock) {
    c.timeRemaining == 0 && c.isRunning && c.phase == Resting
  }

  /** The end of a rest (lines 95-100 and 140-145): the next set in
      `ready` while sets remain, otherwise `logging`. */
  function AdvanceSet(c: Clock, totalSets: int): (r: Clock)
    ensures r.timeRemaining == c.timeRemaining && r.isRunning == c.isRunning
    ensures c.currentSet < totalSets ==> r.phase == Ready && r.currentSet == c.currentSet + 1
    ensures c.currentSet >= totalSets ==> r.phase == Logging && r.currentSet == c.currentSet
  {
    if c.currentSet < totalSets then c.(currentSet := c.currentSet + 1, phase := Ready)
    else c.(phase := Logging)
  }

  /** Effect 2 after a change of the countdown: an expired running rest
      stops and ends (lines 93-101); anything else is left alone. */
  function RestEffect(c: Clock, e: Exercise): (r: Clock)
    ensures !ExpiryPending(r)
  {
    if ExpiryPending(c) then AdvanceSet(c.(isRunning := false), TotalSets(e)) else c
  }

  /** Both effects after an event: effect 1 if its dependencies changed,
      then the expiry branch of effect 2. */
  function Settled(c: Clock, seen: Deps, now: Deps, e: Exercise): (r: Clock)
    ensures !ExpiryPending(r)
  {
    RestEffect(if now != seen then Resync(c, now) else c, e)
  }

  /** Finishing the last exercise: the handler sets `summary` and the
      effects run. If the click completed the exercise, effect 1 re-runs
      and falls through to `logging` at set 1; if the exercise was already
      complete, nothing changed and the summary stays. */
  lemma LastExerciseSettles(c: Clock, before: Deps, now: Deps, e: Exercise)
    requires now.index == before.index && now.currentCompleted
    requires before.currentCompleted ==> now == before
    ensures !before.currentCompleted ==>
      Settled(c.(phase := Summary), before, now, e).phase == Logging && Settled(c.(phase := Summary), before, now, e).currentSet == 1
    ensures before.currentCompleted ==> Settled(c.(phase := Summary), before, now, e) == c.(phase := Summary)
  {
  }

  // ----- The handlers that only touch the timer's own state -----

  /** A handler that changes only the timer's own state; `Tick` is one
      firing of the interval (line 91). */
  datatype Action = StartExercise | CompleteSet | SkipRest | ToggleRestTimer | ResetRestTimer | Tick | SkipToLogging

  /** The phase in which the control of an action is rendered (lines 294,
      304, 318-334, 367-377); the interval fires in any phase. */
  predicate Enabled(c: Clock, a: Action) {
    match a
    case StartExercise => c.phase == Ready
    case CompleteSet => c.phase == Exercising
    case SkipRest => c.phase == Resting
    case ToggleRestTimer => c.phase == Resting
    case ResetRestTimer => c.phase == Resting
    case Tick => true
    case SkipToLogging => c.phase != Logging && c.phase != Summary
  }

  /** The state updates of each handler itself (lines 91, 129-149, 377). */
  function Handle(c: Clock, a: Action, e: Exercise): Clock {
    match a
    case StartExercise => c.(phase := Exercising)
    case CompleteSet => c.(phase := Resting, timeRemaining := RestSeconds(e), isRunning := true)
    case SkipRest => AdvanceSet(c.(isRunning := false, timeRemaining := 0), TotalSets(e))
    case ToggleRestTimer => c.(isRunning := !c.isRunning)
    case ResetRestTimer => c.(timeRemaining := RestSeconds(e), isRunning := false)
    case Tick => if c.isRunning && c.timeRemaining > 0 then c.(timeRemaining := c.timeRemaining - 1) else c
    case SkipToLogging => c.(phase := Logging)
  }

  /** A handler followed by the effects. These handlers leave the exercise
      index and the completion map alone, so effect 1 does not run. */
  function Step(c: Clock, a: Action, e: Exercise): Clock {
    RestEffect(Handle(c, a, e), e)
  }

  /** What the timer keeps true between events: no pending expiry, a
      resting countdown never at zero, and a set number from 1 up to the
      set limit of the exercise except while the summary shows. */
  predicate ClockOk(c: Clock, e: Exercise) {
    && (c.phase == Resting ==> c.timeRemaining != 0)
    && 1 <= c.currentSet
    && (c.phase != Summary ==> c.currentSet <= SetLimit(e))
  }

  lemma StepKeepsClockOk(c: Clock, a: Action, e: Exercise)
    requires ClockOk(c, e) && Enabled(c, a)
    ensures ClockOk(Step(c, a, e), e)
  {
  }

  /** Re-sync starts the new exercise inside its set range, and the
      expiry branch then has nothing to do; without a change of the
      dependencies a consistent clock is left as it is. */
  lemma SettledClockOk(c: Clock, seen: Deps, now: Deps, e: Exercise)
    requires ClockOk(c, e) || (now != seen && 1 <= c.currentSet && (c.phase == Resting ==> c.timeRemaining != 0))
    ensures ClockOk(Settled(c, seen, now, e), e)
    ensures now != seen ==> Settled(c, seen, now, e) == Resync(c, now)
    ensures now == seen ==> Settled(c, seen, now, e) == c
  {
  }

  /** `completeSet` (lines 131-135) always enters a running rest of the
      exercise's full rest time, whatever the set number. */
  lemma CompleteSetStartsRest(c: Clock, e: Exercise)
    requires c.phase == Exercising
    ensures Step(c, CompleteSet, e) == Clock(Resting, RestSeconds(e), true, c.currentSet)
  {
  }

  /** A tick while running with time left takes exactly one second off;
      reaching zero while resting ends the rest at once. A tick while
      paused or at zero changes nothing. */
  lemma TickSteps(c: Clock, e: Exercise)
    requires ClockOk(c, e)
    ensures !c.isRunning || c.timeRemaining <= 0 ==> Step(c, Tick, e) == c
    ensures c.isRunning && c.timeRemaining > 1 ==> Step(c, Tick, e) == c.(timeRemaining := c.timeRemaining - 1)
    ensures c.isRunning && c.timeRemaining == 1 && c.phase != Resting ==> Step(c, Tick, e) == c.(timeRemaining := 0)
    ensures c.isRunning && c.timeRemaining == 1 && c.phase == Resting ==>
      Step(c, Tick, e) == AdvanceSet(c.(timeRemaining := 0, isRunning := false), TotalSets(e))
    ensures c.timeRemaining >= 0 ==> Step(c, Tick, e).timeRemaining >= 0
  {
  }

  /** Pause/resume flips only the running flag; reset restores the full
      rest time and stops; skipping the rest stops the countdown at zero
      and ends the rest. */
  lemma RestControls(c: Clock, e: Exercise)
    requires ClockOk(c, e) && c.phase == Resting
    ensures Step(c, ToggleRestTimer, e) == c.(isRunning := !c.isRunning)
    ensures Step(c, ResetRestTimer, e) == c.(timeRemaining := RestSeconds(e), isRunning := false)
    ensures Step(c, SkipRest, e) == AdvanceSet(c.(timeRemaining := 0, isRunning := false), TotalSets(e))
    ensures Step(Step(c, ToggleRestTimer, e), ToggleRestTimer, e) == c
  {
  }

  /** Skip (line 377) moves to `logging` but leaves a running countdown
      running. */
  lemma SkipToLoggingKeepsCountdown(c: Clock, e: Exercise)
    requires c.phase != Logging && c.phase != Summary
    ensures Step(c, SkipToLogging, e) == c.(phase := Logging)
  {
  }

  /** `count` ticks of the interval. */
  function Ticks(c: Clock, e: Exercise, count: nat): Clock {
    if count == 0 then c else Step(Ticks(c, e, count - 1), Tick, e)
  }

  lemma {:induction false} TicksCountDown(c: Clock, e: Exercise, j: nat)
    requires c.phase == Resting && c.isRunning && j < c.timeRemaining
    ensures Ticks(c, e, j) == c.(timeRemaining := c.timeRemaining - j)
  {
    if j > 0 {
      TicksCountDown(c, e, j - 1);
    }
  }

  /** Waiting out a running rest of `r > 0` seconds takes exactly `r`
      ticks and ends where skipping it would have ended. */
  lemma RestRunsOut(c: Clock, e: Exercise)
    requires c.phase == Resting && c.isRunning && c.timeRemaining > 0
    ensures Ticks(c, e, c.timeRemaining) == Step(c, SkipRest, e)
    ensures forall j :: 0 <= j < c.timeRemaining ==> Ticks(c, e, j).phase == Resting
  {
    TicksCountDown(c, e, c.timeRemaining - 1);
    forall j | 0 <= j < c.timeRemaining ensures Ticks(c, e, j).phase == Resting {
      TicksCountDown(c, e, j);
    }
  }

  /** One set: start it, complete it, then the rest ends. */
  function SetCycle(c: Clock, e: Exercise): Clock {
    Step(Step(Step(c, StartExercise, e), CompleteSet, e), SkipRest, e)
  }

  function SetCycles(c: Clock, e: Exercise, k: nat): Clock {
    if k == 0 then c else SetCycle(SetCycles(c, e, k - 1), e)
  }

  /** Every set passes through one running rest. */
  lemma SetCycleRests(c: Clock, e: Exercise)
    requires c.phase == Ready
    ensures Step(Step(c, StartExercise, e), CompleteSet, e).phase == Resting
  {
  }

  /** From set 1 in `ready`, the first `k` set cycles below the set limit
      leave the exercise in `ready` at set `k + 1`, and the cycle with the
      last set reaches `logging`: the exercise rests exactly `SetLimit`
      times (`sets`, or once when that is missing, zero or negative)
      before its performance is logged. */
  lemma {:induction false} ExactlySetLimitRests(e: Exercise, k: nat)
    requires k <= SetLimit(e)
    ensures k < SetLimit(e) ==> SetCycles(Clock(Ready, 0, false, 1), e, k) == Clock(Ready, 0, false, k + 1)
    ensures k == SetLimit(e) ==> SetCycles(Clock(Ready, 0, false, 1), e, k).phase == Logging
  {
    if k > 0 {
      ExactlySetLimitRests(e, k - 1);
    }
  }

  // ----- formatTime -----

  /** `formatTime` (lines 151-155): whole minutes, a colon, and the
      seconds padded to two characters. */
  function FormatTime(seconds: int): string {
    IntToString(seconds / 60) + ":" + PadStart(IntToString(Js.Rem(seconds, 60)), 2, '0')
  }

  /** For a non-negative count the text is `m:ss`: the digits before the
      colon are the minutes, the two after it the seconds below 60, and
      together they give back the count. */
  lemma FormatTimeReadsBack(seconds: int)
    requires seconds >= 0
    ensures var t := FormatTime(seconds);
      && |t| >= 4 && t[|t| - 3] == ':'
      && AllDigits(t[..|t| - 3]) && AllDigits(t[|t| - 2..])
      && DigitsValue(t[|t| - 2..]) < 60
      && DigitsValue(t[..|t| - 3]) * 60 + DigitsValue(t[|t| - 2..]) == seconds
  {
    var q, r := seconds / 60, seconds % 60;
    var mins := NatToString(q);
    Js.RemOfNonNegative(seconds, 60);
    var secs := Pad2(r);
    assert IntToString(q) == mins;
    assert PadStart(IntToString(Js.Rem(seconds, 60)), 2, '0') == secs;
    ColonSlices(mins, secs, FormatTime(seconds));
    NatToStringRoundTrip(q);
    assert DigitsValue(mins) * 60 + DigitsValue(secs) == q * 60 + r;
  }

  /** The two sides of the colon of `m:ss`. */
  lemma ColonSlices(a: string, b: string, t: string)
    requires |b| == 2 && t == a + ":" + b
    ensures |t| == |a| + 3 && t[|t| - 3] == ':' && t[..|t| - 3] == a && t[|t| - 2..] == b
  {
  }

  // ----- The component -----

  class Timer {
    /** The workout page that renders the timer and owns its props. */
    const tracker: Tracker
    var phase: Phase
    var timeRemaining: int
    var isRunning: bool
    var currentSet: int
    var sessionFeeling: Feeling
    var sessionNotes: string
    /** The dependencies effect 1 last ran with. */
    var seen: Deps

    function Timing(): Clock
      reads this
    {
      Clock(phase, timeRemaining, isRunning, currentSet)
    }

    /** The tracker state the timer is rendered with: a workout not yet
        completed (components/workout-tracker.tsx:272) whose current index
        names an exercise, since the render reads the current exercise. */
    ghost predicate Rendered()
      reads this, tracker
    {
      !tracker.workoutCompleted && 0 <= tracker.currentIndex < |tracker.exercises|
    }

    function Current(): Exercise
      reads this, tracker
      requires Rendered()
    {
      tracker.exercises[tracker.currentIndex]
    }

    function DepsNow(): Deps
      reads this, tracker
      requires Rendered()
    {
      DepsOf(tracker.exercises, tracker.currentIndex, tracker.completed)
    }

    ghost predicate Valid()
      reads this, tracker
    {
      tracker.Valid() && Rendered() && seen == DepsNow() && ClockOk(Timing(), Current())
    }

    /** Mounting: the initial state of lines 52-57, then effect 1, which
        always runs on mount. */
    constructor (tracker: Tracker)
      requires tracker.Valid() && !tracker.workoutCompleted && |tracker.exercises| > 0
      ensures this.tracker == tracker && Valid()
      ensures Timing() == Resync(Clock(Ready, 0, false, 1), DepsNow())
      ensures sessionFeeling == Moderate && sessionNotes == ""
    {
      this.tracker := tracker;
      var d := DepsOf(tracker.exercises, tracker.currentIndex, tracker.completed);
      var c := Resync(Clock(Ready, 0, false, 1), d);
      phase := c.phase;
      timeRemaining := c.timeRemaining;
      isRunning := c.isRunning;
      currentSet := c.currentSet;
      sessionFeeling := Moderate;
      sessionNotes := "";
      seen := d;
    }

    /** Effect 1 (lines 69-84), run only when its dependencies changed. */
    method ExerciseEffect()
      requires Rendered()
      modifies this`phase, this`timeRemaining, this`isRunning, this`currentSet, this`seen
      ensures Timing() == if old(seen) != DepsNow() then Resync(old(Timing()), DepsNow()) else old(Timing())
      ensures seen == DepsNow()
    {
      var d := DepsNow();
      if d != seen {
        seen := d;
        if d.allCompleted && phase != Summary {
          phase := Summary;
          return;
        }
        currentSet := 1;
        if d.currentCompleted {
          phase := Logging;
        } else {
          phase := Ready;
        }
        isRunning := false;
        timeRemaining := 0;
      }
    }

    /** The expiry branch of effect 2 (lines 93-101). */
    method RestExpiryEffect()
      requires Rendered()
      modifies this`phase, this`isRunning, this`currentSet
      ensures Timing() == RestEffect(old(Timing()), Current())
    {
      if timeRemaining == 0 && isRunning && phase == Resting {
        isRunning := false;
        if currentSet < TotalSets(Current()) {
          currentSet := currentSet + 1;
          phase := Ready;
        } else {
          phase := Logging;
        }
      }
    }

    /** Both effects, in the order they are declared. */
    method Settle()
      requires Rendered()
      modifies this`phase, this`timeRemaining, this`isRunning, this`currentSet, this`seen
      ensures Timing() == Settled(old(Timing()), old(seen), DepsNow(), Current())
      ensures seen == DepsNow()
    {
      ExerciseEffect();
      RestExpiryEffect();
    }

    /** `startExercise` (line 129), rendered in `ready`. */
    method StartExercise()
      requires Valid() && phase == Ready
      modifies this`phase, this`timeRemaining, this`isRunning, this`currentSet, this`seen
      ensures Valid()
      ensures Timing() == Step(old(Timing()), Action.StartExercise, Current())
      ensures Timing() == old(Timing()).(phase := Exercising)
      ensures sessionFeeling == old(sessionFeeling) && sessionNotes == old(sessionNotes)
    {
      StepKeepsClockOk(Timing(), Action.StartExercise, Current());
      phase := Exercising;
      Settle();
    }

    /** `completeSet` (lines 131-135), rendered in `exercising`. */
    method CompleteSet()
      requires Valid() && phase == Exercising
      modifies this`phase, this`timeRemaining, this`isRunning, this`currentSet, this`seen
      ensures Valid()
      ensures Timing() == Step(old(Timing()), Action.CompleteSet, Current())
      ensures phase == Resting && timeRemaining == RestSeconds(Current()) && isRunning
      ensures currentSet == old(currentSet)
      ensures sessionFeeling == old(sessionFeeling) && sessionNotes == old(sessionNotes)
    {
      StepKeepsClockOk(Timing(), Action.CompleteSet, Current());
      phase := Resting;
      timeRemaining := RestSeconds(Current());
      isRunning := true;
      Settle();
    }

    /** `skipRest` (lines 137-146), rendered in `resting`. */
    method SkipRest()
      requires Valid() && phase == Resting
      modifies this`phase, this`timeRemaining, this`isRunning, this`currentSet, this`seen
      ensures Valid()
      ensures Timing() == Step(old(Timing()), Action.SkipRest, Current())
      ensures !isRunning && timeRemaining == 0
      ensures old(currentSet) < TotalSets(Current()) ==> phase == Ready && currentSet == old(currentSet) + 1
      ensures old(currentSet) >= TotalSets(Current()) ==> phase == Logging && currentSet == old(currentSet)
      ensures sessionFeeling == old(sessionFeeling) && sessionNotes == old(sessionNotes)
    {
      StepKeepsClockOk(Timing(), Action.SkipRest, Current());
      isRunning := false;
      timeRemaining := 0;
      if currentSet < TotalSets(Current()) {
        currentSet := currentSet + 1;
        phase := Ready;
      } else {
        phase := Logging;
      }
      assert Timing() == Handle(old(Timing()), Action.SkipRest, Current());
      Settle();
    }

    /** `toggleRestTimer` (line 148), rendered in `resting`. */
    method ToggleRestTimer()
      requires Valid() && phase == Resting
      modifies this`phase, this`timeRemaining, this`isRunning, this`currentSet, this`seen
      ensures Valid()
      ensures Timing() == Step(old(Timing()), Action.ToggleRestTimer, Current())
      ensures Timing() == old(Timing()).(isRunning := !old(isRunning))
      ensures sessionFeeling == old(sessionFeeling) && sessionNotes == old(sessionNotes)
    {
      StepKeepsClockOk(Timing(), Action.ToggleRestTimer, Current());
      isRunning := !isRunning;
      Settle();
    }

    /** `resetRestTimer` (line 149), rendered in `resting`. */
    method ResetRestTimer()
      requires Valid() && phase == Resting
      modifies this`phase, this`timeRemaining, this`isRunning, this`currentSet, this`seen
      ensures Valid()
      ensures Timing() == Step(old(Timing()), Action.ResetRestTimer, Current())
      ensures Timing() == old(Timing()).(timeRemaining := RestSeconds(Current()), isRunning := false)
      ensures sessionFeeling == old(sessionFeeling) && sessionNotes == old(sessionNotes)
    {
      StepKeepsClockOk(Timing(), Action.ResetRestTimer, Current());
      timeRemaining := RestSeconds(Current());
      isRunning := false;
      Settle();
    }

    /** One firing of the interval (lines 89-92): it exists only while the
        countdown runs with time left. */
    method Tick()
      requires Valid()
      modifies this`phase, this`timeRemaining, this`isRunning, this`currentSet, this`seen
      ensures Valid()
      ensures Timing() == Step(old(Timing()), Action.Tick, Current())
      ensures !old(isRunning) || old(timeRemaining) <= 0 ==> Timing() == old(Timing())
      ensures old(isRunning) && old(timeRemaining) > 0 ==> timeRemaining == old(timeRemaining) - 1
      ensures sessionFeeling == old(sessionFeeling) && sessionNotes == old(sessionNotes)
    {
      StepKeepsClockOk(Timing(), Action.Tick, Current());
      if isRunning && timeRemaining > 0 {
        timeRemaining := timeRemaining - 1;
      }
      Settle();
    }

    /** The "Skip" button (line 377), rendered outside `logging` and
        `summary`. */
    method SkipToLogging()
      requires Valid() && phase != Logging && phase != Summary
      modifies this`phase, this`timeRemaining, this`isRunning, this`currentSet, this`seen
      ensures Valid()
      ensures Timing() == Step(old(Timing()), Action.SkipToLogging, Current())
      ensures Timing() == old(Timing()).(phase := Logging)
      ensures sessionFeeling == old(sessionFeeling) && sessionNotes == old(sessionNotes)
    {
      StepKeepsClockOk(Timing(), Action.SkipToLogging, Current());
      phase := Logging;
      Settle();
    }

    /** `handlePrevExercise` (lines 108-112), rendered outside `logging`
        and `summary`: it moves back only from an index above 0, and the
        move re-syncs. */
    method PrevExercise()
      requires Valid() && phase != Logging && phase != Summary
      modifies this, tracker
      ensures Valid()
      ensures tracker.currentIndex == if old(tracker.currentIndex) > 0 then old(tracker.currentIndex) - 1 else 0
      ensures tracker.completed == old(tracker.completed) && tracker.logs == old(tracker.logs)
      ensures tracker.hasChanges == old(tracker.hasChanges)
      ensures tracker.error == old(tracker.error) && tracker.showSuccess == old(tracker.showSuccess)
      ensures tracker.sessionFeeling == old(tracker.sessionFeeling) && tracker.sessionNotes == old(tracker.sessionNotes)
      ensures old(tracker.currentIndex) > 0 ==> Timing() == Resync(old(Timing()), DepsNow())
      ensures old(tracker.currentIndex) == 0 ==> Timing() == old(Timing())
      ensures sessionFeeling == old(sessionFeeling) && sessionNotes == old(sessionNotes)
    {
      if tracker.currentIndex > 0 {
        tracker.SetCurrentIndex(tracker.currentIndex - 1);
        SettledClockOk(Timing(), seen, DepsNow(), Current());
        Settle();
      } else {
        SettledClockOk(Timing(), seen, DepsNow(), Current());
      }
    }

    /** A progress dot (line 374), rendered outside `logging` and
        `summary`: it calls `onExerciseChange(idx)`. */
    method JumpTo(idx: int)
      requires Valid() && phase != Logging && phase != Summary
      requires 0 <= idx < |tracker.exercises|
      modifies this, tracker
      ensures Valid()
      ensures tracker.currentIndex == idx
      ensures tracker.completed == old(tracker.completed) && tracker.logs == old(tracker.logs)
      ensures tracker.hasChanges == old(tracker.hasChanges)
      ensures tracker.error == old(tracker.error) && tracker.showSuccess == old(tracker.showSuccess)
      ensures tracker.sessionFeeling == old(tracker.sessionFeeling) && tracker.sessionNotes == old(tracker.sessionNotes)
      ensures idx != old(tracker.currentIndex) ==> Timing() == Resync(old(Timing()), DepsNow())
      ensures idx == old(tracker.currentIndex) ==> Timing() == old(Timing())
      ensures sessionFeeling == old(sessionFeeling) && sessionNotes == old(sessionNotes)
    {
      ghost var c0 := Timing();
      tracker.SetCurrentIndex(idx);
      SettledClockOk(c0, seen, DepsNow(), Current());
      Settle();
    }

    /** A click on the tracker's exercise list
        (components/workout-tracker.tsx:310-313), possible in every phase:
        it changes the index the timer is rendered with. */
    method SelectFromList(idx: int)
      requires Valid() && 0 <= idx < |tracker.exercises|
      modifies this, tracker
      ensures Valid()
      ensures tracker.currentIndex == idx
      ensures tracker.completed == old(tracker.completed) && tracker.logs == old(tracker.logs)
      ensures tracker.hasChanges == old(tracker.hasChanges)
      ensures tracker.error == old(tracker.error) && tracker.showSuccess == old(tracker.showSuccess)
      ensures tracker.sessionFeeling == old(tracker.sessionFeeling) && tracker.sessionNotes == old(tracker.sessionNotes)
      ensures idx != old(tracker.currentIndex) ==> Timing() == Resync(old(Timing()), DepsNow())
      ensures idx == old(tracker.currentIndex) ==> Timing() == old(Timing())
      ensures sessionFeeling == old(sessionFeeling) && sessionNotes == old(sessionNotes)
    {
      ghost var c0 := Timing();
      tracker.SelectFromList(idx);
      SettledClockOk(c0, seen, DepsNow(), Current());
      Settle();
    }

    /** The handler part of `handleNextExercise` (lines 114-123), before
        the effects run. */
    method MarkAndAdvance()
      requires Valid() && phase == Logging
      modifies this`phase, tracker
      ensures tracker.Valid() && Rendered() && seen == old(seen)
      ensures old(DepsNow().currentCompleted) ==> tracker.completed == old(tracker.completed)
      ensures tracker.completed == old(tracker.completed)[old(Current()).id := true]
      ensures KeepsCompletions(old(tracker.completed), tracker.completed)
      ensures tracker.hasChanges && tracker.logs == old(tracker.logs)
      ensures tracker.error == old(tracker.error) && tracker.showSuccess == old(tracker.showSuccess)
      ensures tracker.sessionFeeling == old(tracker.sessionFeeling) && tracker.sessionNotes == old(tracker.sessionNotes)
      ensures old(tracker.currentIndex) < |tracker.exercises| - 1 ==>
        tracker.currentIndex == old(tracker.currentIndex) + 1 && Timing() == old(Timing())
      ensures old(tracker.currentIndex) == |tracker.exercises| - 1 ==>
        tracker.currentIndex == old(tracker.currentIndex) && Timing() == old(Timing()).(phase := Summary)
      ensures old(tracker.currentIndex) == |tracker.exercises| - 1 ==>
        DepsNow() == old(DepsNow()).(currentCompleted := true, allCompleted := DepsNow().allCompleted)
      ensures old(tracker.currentIndex) < |tracker.exercises| - 1 ==> DepsNow() != old(DepsNow())
    {
      tracker.MarkExerciseComplete(Current().id);
      if tracker.currentIndex < |tracker.exercises| - 1 {
        tracker.SetCurrentIndex(tracker.currentIndex + 1);
      } else {
        phase := Summary;
      }
    }

    /** `handleNextExercise` (lines 114-123), rendered in `logging`: it
        marks the current exercise complete, then moves to the next one,
        or on the last exercise sets `summary`. The completion it just
        made re-runs effect 1, which then finds the phase already
        `summary` and falls through to `logging`: the summary shows only
        when the last exercise was complete before the click. */
    method NextExercise()
      requires Valid() && phase == Logging
      modifies this, tracker
      ensures Valid()
      ensures tracker.completed == old(tracker.completed)[old(Current()).id := true]
      ensures tracker.hasChanges && tracker.logs == old(tracker.logs)
      ensures tracker.error == old(tracker.error) && tracker.showSuccess == old(tracker.showSuccess)
      ensures tracker.sessionFeeling == old(tracker.sessionFeeling) && tracker.sessionNotes == old(tracker.sessionNotes)
      ensures var last := old(tracker.currentIndex) == |tracker.exercises| - 1;
        && tracker.currentIndex == (if last then old(tracker.currentIndex) else old(tracker.currentIndex) + 1)
        && Timing() == Settled(if last then old(Timing()).(phase := Summary) else old(Timing()), old(seen), DepsNow(), Current())
      ensures sessionFeeling == old(sessionFeeling) && sessionNotes == old(sessionNotes)
    {
      MarkAndAdvance();
      ghost var c0 := Timing();
      SettledClockOk(c0, seen, DepsNow(), Current());
      Settle();
    }

    /** The sets input (line 346), rendered in `logging`: the typed text
        through `parseInt(value) || 0`. */
    method EditSets(raw: string)
      requires Valid() && phase == Logging
      modifies tracker
      ensures Valid()
      ensures tracker.logs == old(tracker.logs)[Current().id := ApplyEdit(old(tracker.logs)[Current().id], SetsCompleted(ParseIntOrZero(raw)))]
      ensures tracker.hasChanges && tracker.completed == old(tracker.completed)
      ensures tracker.currentIndex == old(tracker.currentIndex)
      ensures tracker.error == old(tracker.error) && tracker.showSuccess == old(tracker.showSuccess)
      ensures tracker.sessionFeeling == old(tracker.sessionFeeling) && tracker.sessionNotes == old(tracker.sessionNotes)
    {
      tracker.UpdateExerciseLog(Current().id, SetsCompleted(ParseIntOrZero(raw)));
    }

    /** The reps input (line 350), rendered in `logging`: the text as typed. */
    method EditReps(raw: string)
      requires Valid() && phase == Logging
      modifies tracker
      ensures Valid()
      ensures tracker.logs == old(tracker.logs)[Current().id := ApplyEdit(old(tracker.logs)[Current().id], RepsCompleted(raw))]
      ensures tracker.hasChanges && tracker.completed == old(tracker.completed)
      ensures tracker.currentIndex == old(tracker.currentIndex)
      ensures tracker.error == old(tracker.error) && tracker.showSuccess == old(tracker.showSuccess)
      ensures tracker.sessionFeeling == old(tracker.sessionFeeling) && tracker.sessionNotes == old(tracker.sessionNotes)
    {
      tracker.UpdateExerciseLog(Current().id, RepsCompleted(raw));
    }

    /** The weight input (line 354), rendered in `logging`: the typed text
        through a parse that gives 0 on bad input. */
    method EditWeight(raw: string)
      requires Valid() && phase == Logging
      modifies tracker
      ensures Valid()
      ensures tracker.logs == old(tracker.logs)[Current().id := ApplyEdit(old(tracker.logs)[Current().id], WeightUsed(ParseIntOrZero(raw)))]
      ensures tracker.hasChanges && tracker.completed == old(tracker.completed)
      ensures tracker.currentIndex == old(tracker.currentIndex)
      ensures tracker.error == old(tracker.error) && tracker.showSuccess == old(tracker.showSuccess)
      ensures tracker.sessionFeeling == old(tracker.sessionFeeling) && tracker.sessionNotes == old(tracker.sessionNotes)
    {
      tracker.UpdateExerciseLog(Current().id, WeightUsed(ParseIntOrZero(raw)));
    }

    /** A feeling button of the summary (line 187). */
    method SetFeeling(f: Feeling)
      requires Valid() && phase == Summary
      modifies this`sessionFeeling
      ensures Valid() && sessionFeeling == f
    {
      sessionFeeling := f;
    }

    /** The notes field of the summary (line 208). */
    method SetNotes(notes: string)
      requires Valid() && phase == Summary
      modifies this`sessionNotes
      ensures Valid() && sessionNotes == notes
    {
      sessionNotes := notes;
    }

    /** `handleFinishWorkout` (lines 125-127), rendered in `summary`: it
        passes the feeling and notes to the page, whose save still uses
        the values the page held before. */
    method FinishWorkout(userSignedIn: bool, today: string) returns (save: Option<SaveRequest>)
      requires Valid() && phase == Summary
      modifies tracker
      ensures Valid()
      ensures tracker.sessionFeeling == sessionFeeling && tracker.sessionNotes == sessionNotes
      ensures userSignedIn ==> save == Some(Finalize(tracker.workoutId, tracker.exercises, tracker.completed, tracker.logs,
                                                     old(tracker.sessionFeeling), old(tracker.sessionNotes), today))
      ensures !userSignedIn ==> save == None && tracker.error == Some("Not authenticated")
      ensures tracker.completed == old(tracker.completed) && tracker.currentIndex == old(tracker.currentIndex)
      ensures userSignedIn ==>
        tracker.error == None &&
        tracker.showSuccess == (old(tracker.showSuccess) || AllCompleted(tracker.exercises, tracker.completed))
      ensures !userSignedIn ==> tracker.showSuccess == old(tracker.showSuccess)
      ensures tracker.logs == old(tracker.logs) && tracker.hasChanges == old(tracker.hasChanges)
    {
      save := tracker.OnComplete(sessionFeeling, sessionNotes, userSignedIn, today);
    }
  }

  /** The written re-sync breaks the finish of a workout done in order:
      on the last exercise, just completed, `handleNextExercise` sets
      `summary`, effect 1 re-runs because the completion changed, and the
      page lands in `logging` again. */
  lemma FinishOnLastAsWritten(c: Clock, before: Deps, e: Exercise)
    requires c.phase == Logging && !before.currentCompleted
    ensures var after := before.(currentCompleted := true, allCompleted := true);
      Settled(c.(phase := Summary), before, after, e).phase == Logging
  {
  }

  /** Both effects with the intended re-sync. */
  function SettledIntended(c: Clock, seen: Deps, now: Deps, e: Exercise): (r: Clock)
    ensures !ExpiryPending(r)
  {
    RestEffect(if now != seen then ResyncIntended(c, now) else c, e)
  }

  /** With the intended re-sync, finishing the last exercise of a
      completed workout shows the summary, whether or not effect 1
      re-runs. */
  lemma FinishOnLastIntended(c: Clock, before: Deps, now: Deps, e: Exercise)
    requires now.allCompleted
    ensures SettledIntended(c.(phase := Summary), before, now, e).phase == Summary
  {
  }
}
