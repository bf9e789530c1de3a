/** Values exchanged with the outside world: tokens, HTTP replies as the
    client sees them, the calls it makes, and the scripted network that
    answers them. Also the two bits of JavaScript semantics the client
    relies on: truthiness of optional strings and string concatenation
    with `undefined`. */
module Wire {

  datatype Option<+T> = None | Some(value: T)

  /** What a call of the client throws. */
  datatype Error =
    | Exception(message: string)   // `throw new Error(message)`
    | MalformedBody                // a JSON body lacks the field the client reads, or is not JSON
    | NetworkFailure               // `fetch` rejected

  datatype Result<+T> = Ok(value: T) | Err(error: Error)

  /** `!x` is false exactly for these: a present, non-empty string. */
  predicate Truthy(x: Option<string>)
  {
    x.Some? && x.value != ""
  }

  /** `'...' + x` for an optional string: an absent value renders as "undefined". */
  function Show(x: Option<string>): (s: string)
    ensures x.Some? ==> s == x.value
    ensures x.None? ==> s == "undefined"
  {
    match x
    case Some(v) => v
    case None => "undefined"
  }

  /** The first result row of a JSON document, as far as the client reads it. */
  datatype Row = Row(currentDivision: Option<string>)

  /** A parsed JSON document: a bare string, or any other document, known by
      its text and by what `d.results[0]` holds. None: `d`, `d.results` or
      `d.results[0]` is null or undefined, so reading the field throws. A
      first row that is a primitive, or an object without the field, is
      `Some(Row(None))`. */
  datatype Json =
    | JString(text: string)
    | JDocument(raw: string, firstRow: Option<Row>)

  /** A response body: served without a JSON content type (read as text),
      served as JSON (read with `res.json()`), or served as JSON with text
      that does not parse, on which `res.json()` rejects. */
  datatype Body = Text(text: string) | Json(json: Json) | Unparsable(raw: string)

  /** `typeof data === 'string'` */
  predicate IsString(b: Body)
  {
    b.Text? || (b.Json? && b.json.JString?)
  }

  function StringOf(b: Body): string
    requires IsString(b)
  {
    if b.Text? then b.text else b.json.text
  }

  datatype Reply = Reply(status: int, body: Body)

  /** The token endpoint's JSON answer: a token pair, or an `error` member
      whose `message.value` may be missing. */
  datatype Grant =
    | Granted(accessToken: string, refreshToken: string)
    | Rejected(message: Option<string>)

  datatype Verb = GET | POST | PUT | DELETE

  type Param = (string, string)

  /** One outbound call, as the log records it. */
  datatype Call =
    | TokenRequest(form: seq<Param>)                    // POST to the token endpoint
    | ApiRequest(verb: Verb, url: string, bearer: string) // a resource-API call

  /** The network as seen by one session: the replies the resource API and
      the token endpoint will give, in order, and the calls made so far.
      A call made when its script is exhausted fails as if `fetch` had
      rejected. */
  datatype Net = Net(replies: seq<Reply>, grants: seq<Grant>, sent: seq<Call>)
  {
    function NextReply(): (r: Option<Reply>)
      ensures r.Some? <==> |replies| > 0
      ensures r.Some? ==> r.value == replies[0]
    {
      if |replies| > 0 then Some(replies[0]) else None
    }

    /** The net after a resource-API call: the call is logged, its reply consumed. */
    function AfterApi(call: Call): (n: Net)
      ensures n.sent == sent + [call] && n.grants == grants
      ensures |replies| > 0 ==> n.replies == replies[1..]
      ensures |replies| == 0 ==> n.replies == []
    {
      Net(if |replies| > 0 then replies[1..] else [], grants, sent + [call])
    }

    function NextGrant(): (g: Option<Grant>)
      ensures g.Some? <==> |grants| > 0
      ensures g.Some? ==> g.value == grants[0]
    {
      if |grants| > 0 then Some(grants[0]) else None
    }

    /** The net after a token-endpoint call. */
    function AfterToken(call: Call): (n: Net)
      ensures n.sent == sent + [call] && n.replies == replies
      ensures |grants| > 0 ==> n.grants == grants[1..]
      ensures |grants| == 0 ==> n.grants == []
    {
      Net(replies, if |grants| > 0 then grants[1..] else [], sent + [call])
    }
  }

  /** What `request` is asked to do. Headers and payload are not part of
      this model; `query` is the already encoded query string. */
  datatype Descriptor = Descriptor(endpoint: string, query: string, verb: Verb, division: Option<string>)
}
