/** `POST /api/generate-meal`: the same extraction as the workout route,
    with its own messages; a thrown value that is not an `Error` is
    reported as "Unknown error". */
module GenerateMealRoute {
  import opened Types
  import opened JsonSpan

  const NoJson := "No valid JSON found in response"
  const RouteError := "Failed to generate meal plan"
  const UnknownError := "Unknown error"

  /** The route, given the model's text (or what reading the request or
      generating threw) and `JSON.parse`, which may throw. */
  function Post<P>(text: Result<string, Thrown>, parse: string -> Result<P, Thrown>): (r: Response<P>)
    ensures r.PlanResponse? <==> text.Ok? && JsonMatch(text.value).Some? && parse(JsonMatch(text.value).value).Ok?
    ensures r.PlanResponse? ==> r.plan == parse(JsonMatch(text.value).value).value
    ensures r.ErrorResponse? ==> r.status == 500 && r.error == RouteError
    ensures text.Err? && text.error.ErrorValue? ==> r.details == text.error.message
    ensures text.Err? && text.error.OtherValue? ==> r.details == UnknownError
    ensures text.Ok? && JsonMatch(text.value).None? ==> r.details == NoJson
    ensures text.Ok? && JsonMatch(text.value).Some? && parse(JsonMatch(text.value).value).Err? ==>
      r.details == parse(JsonMatch(text.value).value).error.MessageOr(UnknownError)
  {
    var outcome: Result<P, Thrown> :=
      if text.Err? then Err(text.error)
      else match JsonMatch(text.value)
        case None => Err(ErrorValue(NoJson))
        case Some(json) => parse(json);
    if outcome.Ok? then PlanResponse(outcome.value)
    else ErrorResponse(500, RouteError, outcome.error.MessageOr(UnknownError))
  }
}
