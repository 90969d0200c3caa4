/** `POST /api/generate-workout`: the model's answer is cut down to its
    JSON object and parsed; any failure becomes a 500 error object. */
module GenerateWorkoutRoute {
  import opened Types
  import opened JsonSpan

  const ParseFailure := "Failed to parse workout plan from AI response"
  const RouteError := "Failed to generate workout plan"

  /** `error instanceof Error ? error.message : String(error)`. */
  function Details(error: Thrown): (d: string)
    ensures error.ErrorValue? ==> d == error.message
    ensures error.OtherValue? ==> d == error.rendered
  {
    error.MessageOr(if error.OtherValue? then error.rendered else "")
  }

  /** The route, given the model's text (or what reading the request or
      generating threw) and `JSON.parse`, which may throw. */
  function Post<P>(text: Result<string, Thrown>, parse: string -> Result<P, Thrown>): (r: Response<P>)
    ensures r.PlanResponse? <==> text.Ok? && JsonMatch(text.value).Some? && parse(JsonMatch(text.value).value).Ok?
    ensures r.PlanResponse? ==> r.plan == parse(JsonMatch(text.value).value).value
    ensures r.ErrorResponse? ==> r.status == 500 && r.error == RouteError
    ensures text.Err? ==> r.details == Details(text.error)
    ensures text.Ok? && JsonMatch(text.value).None? ==> r.details == ParseFailure
    ensures text.Ok? && JsonMatch(text.value).Some? && parse(JsonMatch(text.value).value).Err? ==>
      r.details == Details(parse(JsonMatch(text.value).value).error)
  {
    var outcome: Result<P, Thrown> :=
      if text.Err? then Err(text.error)
      else match JsonMatch(text.value)
        case None => Err(ErrorValue(ParseFailure))
        case Some(json) => parse(json);
    if outcome.Ok? then PlanResponse(outcome.value)
    else ErrorResponse(500, RouteError, Details(outcome.error))
  }

  /** Only the matched object is parsed: two answers with the same JSON
      object and different text around it give the same response. */
  lemma SurroundingTextIgnored<P>(a: string, b: string, parse: string -> Result<P, Thrown>)
    requires JsonMatch(a) == JsonMatch(b) && JsonMatch(a).Some?
    ensures Post(Ok(a), parse) == Post(Ok(b), parse)
  {
  }
}
