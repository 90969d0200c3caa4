/** Shared value types: the enumerations of lib/types.ts and the
    Option/Result wrappers used for optional fields and error outcomes. */
module Types {

  datatype Option<+T> = None | Some(value: T) {
    function GetOr(default: T): T {
      match this
      case Some(v) => v
      case None => default
    }
  }

  datatype Result<+T, +E> = Ok(value: T) | Err(error: E)

  /** A value thrown in JavaScript: an `Error` object with its message, or
      any other value, carried by its `String(...)` rendering. */
  datatype Thrown = ErrorValue(message: string) | OtherValue(rendered: string) {
    /** `err instanceof Error ? err.message : fallback`. */
    function MessageOr(fallback: string): string {
      if ErrorValue? then message else fallback
    }
  }

  /** The JSON body a generation route answers with: the parsed plan, or
      an error object with its HTTP status. */
  datatype Response<+P> = PlanResponse(plan: P) | ErrorResponse(status: int, error: string, details: string)

  datatype FitnessLevel = Beginner | Intermediate | Advanced

  datatype FitnessGoal =
    | LoseWeight | BuildMuscle | ImproveEndurance | GeneralFitness | IncreaseFlexibility

  datatype EquipmentOption =
    | Dumbbells | Barbell | ResistanceBands | PullUpBar | Kettlebell
    | Bench | CableMachine | CardioEquipment | BodyweightOnly | FullGym

  /** The session's overall feeling; "moderate" is the default of both the
      timer and the tracker. */
  datatype Feeling = Easy | Moderate | Hard | VeryHard
}
