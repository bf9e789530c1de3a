/** How the client reads a resource-API reply: the status-to-outcome chain
    of `request`, and the division field that the current-user lookup
    takes from the first result row. */
module Status {
  import opened Wire

  /** `Response.ok` */
  predicate IsOk(status: int)
  {
    200 <= status <= 299
  }

  /** The statuses `request` turns into a thrown error, each with the phrase
      it uses when the body is not a string. Used as the reference table for
      the `if` chain of `Classify`. */
  const Phrases: map<int, string> := map[
    400 := "Bad Request",
    403 := "Forbidden",
    404 := "Not Found",
    408 := "Request Timeout, try again later",
    429 := "Request Too Many Requests, try again later",
    500 := "Internal Service Error",
    503 := "Internal Service Unavailable"]

  /** What `request` does with a reply it has received. */
  datatype Verdict =
    | Reauthorize        // refresh the tokens and re-enter
    | Throw(message: string)
    | ReturnTrue         // the literal `true`
    | ReturnBody         // the body as read
    | Unreadable         // `res.json()` rejected: the parse error is thrown

  /** `'EXACT: ' + (typeof data === 'string' ? data : phrase)` */
  function ErrorText(body: Body, phrase: string): string
  {
    "EXACT: " + (if IsString(body) then StringOf(body) else phrase)
  }

  /** What follows the error chain: 204 returns `true`, anything else its body. */
  function AfterChecks(status: int): Verdict
  {
    if status == 204 then ReturnTrue else ReturnBody
  }

  /** The reply handling of `request`, in the source's order: 401 first,
      before the body is read; then reading the body; then the chain of
      non-ok statuses; then the 204 short-circuit. */
  function Classify(status: int, body: Body): (v: Verdict)
    ensures v.Reauthorize? <==> status == 401
    ensures v.Unreadable? <==> status != 401 && body.Unparsable?
    ensures v.Throw? <==> status in Phrases && !body.Unparsable?
    ensures v.Throw? ==> v.message == "EXACT: " + (if IsString(body) then StringOf(body) else Phrases[status])
    ensures v.ReturnTrue? <==> status == 204 && !body.Unparsable?
    ensures v.ReturnBody? <==> status != 401 && status != 204 && status !in Phrases && !body.Unparsable?
  {
    if status == 401 then Reauthorize
    else if body.Unparsable? then Unreadable
    else if !IsOk(status) then
      if status == 400 then Throw(ErrorText(body, "Bad Request"))
      else if status == 403 then Throw(ErrorText(body, "Forbidden"))
      else if status == 404 then Throw(ErrorText(body, "Not Found"))
      else if status == 408 then Throw(ErrorText(body, "Request Timeout, try again later"))
      else if status == 429 then Throw(ErrorText(body, "Request Too Many Requests, try again later"))
      else if status == 500 then Throw(ErrorText(body, "Internal Service Error"))
      else if status == 503 then Throw(ErrorText(body, "Internal Service Unavailable"))
      else AfterChecks(status)
    else AfterChecks(status)
  }

  /** Any non-ok status outside the table is not an error: its body is returned. */
  lemma UnlistedFailureReturnsBody(status: int, body: Body)
    requires !IsOk(status) && status != 401 && status !in Phrases && !body.Unparsable?
    ensures Classify(status, body) == ReturnBody
  {
  }

  /** `data.d.results[0].CurrentDivision` of the lookup reply, read with
      `res.json()` whatever its status: a body that is not a JSON document
      with a first result row makes the field access throw. */
  function ReadDivision(body: Body): (r: Result<Option<string>>)
    ensures r.Ok? <==> body.Json? && body.json.JDocument? && body.json.firstRow.Some?
    ensures r.Ok? ==> r.value == body.json.firstRow.value.currentDivision
    ensures r.Err? ==> r.error == MalformedBody
  {
    match body
    case Text(_) => Err(MalformedBody)
    case Json(JString(_)) => Err(MalformedBody)
    case Json(JDocument(_, None)) => Err(MalformedBody)
    case Json(JDocument(_, Some(row))) => Ok(row.currentDivision)
    case Unparsable(_) => Err(MalformedBody)
  }
}
