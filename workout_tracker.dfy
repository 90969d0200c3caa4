/** The workout session aggregator of components/workout-tracker.tsx: the
    per-exercise completion map and performance logs it owns, the edits
    the timer sends it, and what finishing the workout hands to storage.
    Storage itself is not modelled: finishing returns the rows and updates
    that the page would send. */
module WorkoutTracker {
  import opened Types

  /** An exercise of the workout (lines 16-26). */
  datatype Exercise = Exercise(
    id: string,
    name: string,
    sets: Option<int>,
    reps: Option<string>,
    durationMinutes: Option<int>,
    restSeconds: Option<int>,
    notes: Option<string>,
    orderIndex: int,
    completed: bool)

  /** The performance log of one exercise (lines 36-44). */
  datatype ExerciseLog = ExerciseLog(
    exerciseId: string,
    exerciseName: string,
    setsCompleted: int,
    repsCompleted: string,
    weightUsed: int,
    durationMinutes: Option<int>,
    notes: string)

  /** The most recent log of an exercise on a redo (lines 46-51). */
  datatype PreviousLog = PreviousLog(weightUsed: int, setsCompleted: int, repsCompleted: string, notes: string)

  /** An edit the logging form sends through `onLogUpdate`: the field and
      its new value. */
  datatype LogEdit = SetsCompleted(sets: int) | RepsCompleted(reps: string) | WeightUsed(weight: int)

  function Ids(exs: seq<Exercise>): set<string> {
    set e | e in exs :: e.id
  }

  lemma IdsCons(exs: seq<Exercise>)
    requires exs != []
    ensures Ids(exs) == {exs[0].id} + Ids(exs[1..])
  {
    assert exs == [exs[0]] + exs[1..];
  }

  /** Exercise ids are primary keys of the exercise table. */
  predicate DistinctIds(exs: seq<Exercise>) {
    forall i, j :: 0 <= i < j < |exs| ==> exs[i].id != exs[j].id
  }

  /** `exs[i]` is the last exercise carrying its id, so its entry is the
      one a left-to-right `reduce` with spread leaves in place. */
  predicate LastWithId(exs: seq<Exercise>, i: int)
    requires 0 <= i < |exs|
  {
    forall j :: i < j < |exs| ==> exs[j].id != exs[i].id
  }

  lemma DistinctIdsAreLast(exs: seq<Exercise>, i: int)
    requires DistinctIds(exs) && 0 <= i < |exs|
    ensures LastWithId(exs, i)
  {
  }

  /** The completion map (lines 55-63): one entry per exercise id,
      holding that exercise's stored `completed` flag. */
  function InitialCompletion(exs: seq<Exercise>): (m: map<string, bool>)
    ensures m.Keys == Ids(exs)
    ensures forall i :: 0 <= i < |exs| && LastWithId(exs, i) ==> m[exs[i].id] == exs[i].completed
  {
    if exs == [] then map[]
    else
      var init := exs[..|exs| - 1];
      var last := exs[|exs| - 1];
      assert exs == init + [last];
      assert forall i :: 0 <= i < |init| && LastWithId(exs, i) ==> LastWithId(init, i);
      InitialCompletion(init)[last.id := last.completed]
  }

  /** The log an exercise starts with (lines 67-78): the previous log's
      sets, reps, weight and notes when there is one, else the planned sets
      (or 0), the planned reps (or ""), weight 0 and empty notes; the
      duration always comes from the exercise. */
  function SeedLog(e: Exercise, prev: map<string, PreviousLog>): ExerciseLog {
    if e.id in prev then
      var p := prev[e.id];
      ExerciseLog(e.id, e.name, p.setsCompleted, p.repsCompleted, p.weightUsed, e.durationMinutes, p.notes)
    else
      ExerciseLog(e.id, e.name, e.sets.GetOr(0), e.reps.GetOr(""), 0, e.durationMinutes, "")
  }

  /** The log table (lines 64-83): one seeded log per exercise id. */
  function InitialLogs(exs: seq<Exercise>, prev: map<string, PreviousLog>): (m: map<string, ExerciseLog>)
    ensures m.Keys == Ids(exs)
    ensures forall i :: 0 <= i < |exs| && LastWithId(exs, i) ==> m[exs[i].id] == SeedLog(exs[i], prev)
  {
    if exs == [] then map[]
    else
      var init := exs[..|exs| - 1];
      var last := exs[|exs| - 1];
      assert exs == init + [last];
      assert forall i :: 0 <= i < |init| && LastWithId(exs, i) ==> LastWithId(init, i);
      InitialLogs(init, prev)[last.id := SeedLog(last, prev)]
  }

  /** On a redo every exercise with a previous log starts from that log's
      values, not from the plan; without one it starts from the plan. */
  lemma SeedLogPrefill(e: Exercise, prev: map<string, PreviousLog>)
    ensures var log := SeedLog(e, prev);
      && log.exerciseId == e.id && log.durationMinutes == e.durationMinutes
      && (e.id in prev ==>
            log.setsCompleted == prev[e.id].setsCompleted && log.repsCompleted == prev[e.id].repsCompleted
            && log.weightUsed == prev[e.id].weightUsed && log.notes == prev[e.id].notes)
      && (e.id !in prev ==>
            log.setsCompleted == (if e.sets.Some? then e.sets.value else 0)
            && log.repsCompleted == (if e.reps.Some? then e.reps.value else "")
            && log.weightUsed == 0 && log.notes == "")
  {
  }

  /** One field edit (lines 94-103): the named field takes the value. */
  function ApplyEdit(log: ExerciseLog, edit: LogEdit): ExerciseLog {
    match edit
    case SetsCompleted(n) => log.(setsCompleted := n)
    case RepsCompleted(r) => log.(repsCompleted := r)
    case WeightUsed(w) => log.(weightUsed := w)
  }

  /** `exerciseCompleted[id]` read as a condition: a missing entry is
      `undefined`, which is false. */
  predicate IsMarked(m: map<string, bool>, id: string) {
    id in m && m[id]
  }

  /** No entry that was true has become false. */
  ghost predicate KeepsCompletions(before: map<string, bool>, after: map<string, bool>) {
    forall id :: IsMarked(before, id) ==> IsMarked(after, id)
  }

  /** `workout.exercises.every((ex) => exerciseCompleted[ex.id])`
      (lines 151 and 186). */
  predicate AllCompleted(exs: seq<Exercise>, m: map<string, bool>) {
    forall i :: 0 <= i < |exs| ==> IsMarked(m, exs[i].id)
  }

  /** Once every exercise is complete the workout stays complete, since
      entries only ever go from false to true. */
  lemma AllCompletedStays(exs: seq<Exercise>, m0: map<string, bool>, m1: map<string, bool>)
    requires AllCompleted(exs, m0) && KeepsCompletions(m0, m1)
    ensures AllCompleted(exs, m1)
  {
  }

  /** The ids whose entry is true, in the order of `Object.entries` on the
      completion map: the order in which the exercises inserted them. */
  function CompletedIds(exs: seq<Exercise>, m: map<string, bool>): (ids: seq<string>)
    ensures |ids| <= |exs|
    ensures forall id :: id in ids <==> id in Ids(exs) && IsMarked(m, id)
  {
    if exs == [] then []
    else
      var rest := CompletedIds(exs[1..], m);
      IdsCons(exs);
      if IsMarked(m, exs[0].id) then [exs[0].id] + rest else rest
  }

  /** `rows` are the logs of `ids`, in order, each keyed by its id. */
  ghost predicate RowsOf(rows: seq<ExerciseLog>, ids: seq<string>, logs: map<string, ExerciseLog>) {
    |rows| == |ids| &&
    forall k :: 0 <= k < |rows| ==> ids[k] in logs && rows[k] == logs[ids[k]].(exerciseId := ids[k])
  }

  lemma RowsOfCons(id: string, logs: map<string, ExerciseLog>, rest: seq<ExerciseLog>, restIds: seq<string>)
    requires id in logs && RowsOf(rest, restIds, logs)
    ensures RowsOf([logs[id].(exerciseId := id)] + rest, [id] + restIds, logs)
  {
    var rows, ids := [logs[id].(exerciseId := id)] + rest, [id] + restIds;
    forall k | 0 <= k < |rows| ensures ids[k] in logs && rows[k] == logs[ids[k]].(exerciseId := ids[k]) {
      if k > 0 {
        assert rows[k] == rest[k - 1] && ids[k] == restIds[k - 1];
      }
    }
  }

  /** The exercise-log rows (lines 133-143): the log of every exercise whose
      entry is true, keyed by that exercise's id, in the same order. */
  function LogRows(exs: seq<Exercise>, m: map<string, bool>, logs: map<string, ExerciseLog>): (rows: seq<ExerciseLog>)
    requires Ids(exs) <= logs.Keys
    ensures RowsOf(rows, CompletedIds(exs, m), logs)
  {
    if exs == [] then []
    else
      IdsCons(exs);
      var rest := LogRows(exs[1..], m, logs);
      var id := exs[0].id;
      if IsMarked(m, id) then
        RowsOfCons(id, logs, rest, CompletedIds(exs[1..], m));
        [logs[id].(exerciseId := id)] + rest
      else
        rest
  }

  /** Incomplete exercises are left out of the saved rows however their
      logs were edited: two log tables that agree on the completed
      exercises give the same rows. */
  lemma {:induction false} LogRowsIgnoreIncomplete(exs: seq<Exercise>, m: map<string, bool>,
                                                  logs1: map<string, ExerciseLog>, logs2: map<string, ExerciseLog>)
    requires Ids(exs) <= logs1.Keys && Ids(exs) <= logs2.Keys
    requires forall id :: id in Ids(exs) && IsMarked(m, id) ==> logs1[id] == logs2[id]
    ensures LogRows(exs, m, logs1) == LogRows(exs, m, logs2)
  {
    if exs != [] {
      IdsCons(exs);
      LogRowsIgnoreIncomplete(exs[1..], m, logs1, logs2);
    }
  }

  /** With distinct ids, every exercise is complete exactly when every
      exercise id was kept by the completed-id filter. */
  lemma {:induction false} AllCompletedIffAllIds(exs: seq<Exercise>, m: map<string, bool>)
    requires DistinctIds(exs)
    ensures AllCompleted(exs, m) <==> |CompletedIds(exs, m)| == |exs|
  {
    if exs != [] {
      var tail := exs[1..];
      assert DistinctIds(tail);
      AllCompletedIffAllIds(tail, m);
      assert exs == [exs[0]] + tail;
      if AllCompleted(exs, m) {
        assert AllCompleted(tail, m) by {
          forall i | 0 <= i < |tail| ensures IsMarked(m, tail[i].id) {
            assert tail[i] == exs[i + 1];
          }
        }
      } else if IsMarked(m, exs[0].id) {
        assert !AllCompleted(tail, m) by {
          var i :| 0 <= i < |exs| && !IsMarked(m, exs[i].id);
          assert i > 0 && tail[i - 1] == exs[i];
        }
      }
    }
  }

  datatype SessionRow = SessionRow(workoutId: string, sessionDate: string, notes: string, feeling: Feeling)

  /** Where the page goes once the save succeeded (lines 172-178). */
  datatype AfterSave = ShowSuccessPopup | GoToDashboard

  /** What finishing a workout hands to storage: the session row, the log
      rows (inserted only when there is at least one), whether the workout
      itself is marked completed, the exercises marked completed one by
      one, and what the page shows next. */
  datatype SaveRequest = SaveRequest(
    session: SessionRow,
    logRows: seq<ExerciseLog>,
    insertLogs: bool,
    markWorkoutCompleted: bool,
    exercisesToMark: seq<string>,
    after: AfterSave)

  /** The derivations of `handleCompleteWorkout` (lines 117-178). */
  function Finalize(workoutId: string, exs: seq<Exercise>, m: map<string, bool>, logs: map<string, ExerciseLog>,
                    feeling: Feeling, notes: string, today: string): (r: SaveRequest)
    requires Ids(exs) <= logs.Keys
    ensures r.session == SessionRow(workoutId, today, notes, feeling)
    ensures r.insertLogs <==> exists id :: id in Ids(exs) && IsMarked(m, id)
    ensures r.markWorkoutCompleted <==> AllCompleted(exs, m)
    ensures r.after == ShowSuccessPopup <==> AllCompleted(exs, m)
    ensures forall id :: id in r.exercisesToMark <==> id in Ids(exs) && IsMarked(m, id)
    ensures forall row :: row in r.logRows ==> row.exerciseId in Ids(exs) && IsMarked(m, row.exerciseId)
    ensures r.exercisesToMark == CompletedIds(exs, m)
    ensures RowsOf(r.logRows, r.exercisesToMark, logs)
  {
    var rows := LogRows(exs, m, logs);
    var all := AllCompleted(exs, m);
    var ids := CompletedIds(exs, m);
    assert forall row :: row in rows ==> row.exerciseId in ids;
    assert |ids| > 0 ==> ids[0] in ids;
    SaveRequest(
      SessionRow(workoutId, today, notes, feeling),
      rows,
      |rows| > 0,
      all,
      ids,
      if all then ShowSuccessPopup else GoToDashboard)
  }

  /** The tracker page's state (lines 55-90). */
  class Tracker {
    const workoutId: string
    const exercises: seq<Exercise>
    /** `workout.completed` as loaded: the page shows the timer only when
        it is false, the "Update Workout" button only when it is true. */
    const workoutCompleted: bool
    var completed: map<string, bool>
    var logs: map<string, ExerciseLog>
    var sessionNotes: string
    var sessionFeeling: Feeling
    var error: Option<string>
    var hasChanges: bool
    var showSuccess: bool
    var currentIndex: int

    ghost predicate Valid()
      reads this
    {
      && DistinctIds(exercises)
      && completed.Keys == Ids(exercises)
      && logs.Keys == Ids(exercises)
      && 0 <= currentIndex
      && (|exercises| > 0 ==> currentIndex < |exercises|)
      && (|exercises| == 0 ==> currentIndex == 0)
    }

    constructor (workoutId: string, exercises: seq<Exercise>, workoutCompleted: bool, previousLogs: map<string, PreviousLog>)
      requires DistinctIds(exercises)
      ensures Valid()
      ensures this.workoutId == workoutId && this.exercises == exercises && this.workoutCompleted == workoutCompleted
      ensures completed == InitialCompletion(exercises) && logs == InitialLogs(exercises, previousLogs)
      ensures sessionNotes == "" && sessionFeeling == Moderate && error == None
      ensures !hasChanges && !showSuccess && currentIndex == 0
    {
      this.workoutId := workoutId;
      this.exercises := exercises;
      this.workoutCompleted := workoutCompleted;
      completed := InitialCompletion(exercises);
      logs := InitialLogs(exercises, previousLogs);
      sessionNotes := "";
      sessionFeeling := Moderate;
      error := None;
      hasChanges := false;
      showSuccess := false;
      currentIndex := 0;
    }

    /** The timer is rendered only for a workout not yet completed (line 272). */
    predicate ShowsTimer()
      reads this
    {
      !workoutCompleted
    }

    /** "Update Workout" is rendered only for a completed workout with
        changes (line 367). */
    predicate ShowsUpdateButton()
      reads this
    {
      workoutCompleted && hasChanges
    }

    /** `updateExerciseLog` (lines 94-103), called with the id of the
        exercise being logged: only that entry's named field changes and
        the page records that there are changes. */
    method UpdateExerciseLog(id: string, edit: LogEdit)
      requires Valid() && id in logs
      modifies this
      ensures Valid()
      ensures logs == old(logs)[id := ApplyEdit(old(logs)[id], edit)]
      ensures forall k :: k in logs && k != id ==> logs[k] == old(logs)[k]
      ensures hasChanges
      ensures completed == old(completed) && currentIndex == old(currentIndex)
      ensures sessionNotes == old(sessionNotes) && sessionFeeling == old(sessionFeeling)
      ensures error == old(error) && showSuccess == old(showSuccess)
    {
      hasChanges := true;
      logs := logs[id := ApplyEdit(logs[id], edit)];
    }

    /** `onExerciseComplete` (lines 286-289): only that exercise's entry
        becomes true, and the page records that there are changes. */
    method MarkExerciseComplete(id: string)
      requires Valid() && id in Ids(exercises)
      modifies this
      ensures Valid()
      ensures completed == old(completed)[id := true]
      ensures KeepsCompletions(old(completed), completed)
      ensures hasChanges
      ensures logs == old(logs) && currentIndex == old(currentIndex)
      ensures sessionNotes == old(sessionNotes) && sessionFeeling == old(sessionFeeling)
      ensures error == old(error) && showSuccess == old(showSuccess)
    {
      completed := completed[id := true];
      hasChanges := true;
    }

    /** `onExerciseChange`, which is `setCurrentExerciseIndex` (line 276). */
    method SetCurrentIndex(idx: int)
      requires Valid() && 0 <= idx < |exercises|
      modifies this`currentIndex
      ensures Valid() && currentIndex == idx
    {
      currentIndex := idx;
    }

    /** A click on an exercise of the list (lines 310-313): it selects that
        exercise, unless the workout was already completed. */
    method SelectFromList(idx: int)
      requires Valid() && 0 <= idx < |exercises|
      modifies this`currentIndex
      ensures Valid()
      ensures currentIndex == if workoutCompleted then old(currentIndex) else idx
    {
      if !workoutCompleted {
        currentIndex := idx;
      }
    }

    /** `handleCompleteWorkout` (lines 105-184). Without a signed-in user it
        fails with "Not authenticated" and saves nothing; otherwise it
        hands over the derived save and shows the success popup exactly
        when every exercise is complete. Storage failures are not
        modelled. */
    method CompleteWorkout(userSignedIn: bool, today: string) returns (save: Option<SaveRequest>)
      requires Valid()
      modifies this`error, this`showSuccess
      ensures Valid()
      ensures !userSignedIn ==> save == None && error == Some("Not authenticated") && showSuccess == old(showSuccess)
      ensures userSignedIn ==> save == Some(Finalize(workoutId, exercises, completed, logs, sessionFeeling, sessionNotes, today))
      ensures userSignedIn ==> error == None && showSuccess == (old(showSuccess) || AllCompleted(exercises, completed))
    {
      error := None;
      if !userSignedIn {
        error := Some("Not authenticated");
        return None;
      }
      var request := Finalize(workoutId, exercises, completed, logs, sessionFeeling, sessionNotes, today);
      if request.after == ShowSuccessPopup {
        showSuccess := true;
      }
      save := Some(request);
    }

    /** The timer's `onComplete` (lines 277-281): it stores the feeling and
        notes, but `handleCompleteWorkout` runs in the same event with the
        values the page held before, so the saved session carries the old
        feeling and notes. */
    method OnComplete(feeling: Feeling, notes: string, userSignedIn: bool, today: string) returns (save: Option<SaveRequest>)
      requires Valid()
      modifies this`error, this`showSuccess, this`sessionFeeling, this`sessionNotes
      ensures Valid()
      ensures sessionFeeling == feeling && sessionNotes == notes
      ensures userSignedIn ==> save == Some(Finalize(workoutId, exercises, completed, logs,
                                                     old(sessionFeeling), old(sessionNotes), today))
      ensures !userSignedIn ==> save == None && error == Some("Not authenticated") && showSuccess == old(showSuccess)
      ensures userSignedIn ==> error == None && showSuccess == (old(showSuccess) || AllCompleted(exercises, completed))
    {
      save := CompleteWorkout(userSignedIn, today);
      sessionFeeling := feeling;
      sessionNotes := notes;
    }
  }
}
