/** The `POST` handler of app/api/analyze/route.ts: it validates the parsed
    request, forwards `{text, subject}` to the scoring service once, and
    selects the response from what that call delivers. */
module AnalyzeRoute {
  import opened Js

  const InvalidInput := "Invalid input"
  const BackendError := "Error from backend"
  const InternalError := "Internal server error"

  /** An HTTP response: its status and its JSON body. */
  datatype Response = Response(status: int, body: Json)

  /** One handled request: the body forwarded upstream (`None`: no upstream
      call was made) and the response returned to the client. */
  datatype Exchange = Exchange(forwarded: Option<Json>, response: Response)

  /** `{ error: message }`. */
  function Envelope(message: Json): Json {
    JObj(map["error" := message])
  }

  /** A body that is exactly the single field `error`. */
  predicate IsErrorEnvelope(body: Json) {
    body.JObj? && body.fields.Keys == {"error"}
  }

  /** What the catch block returns. */
  function ServerError(): Response {
    Response(500, Envelope(JStr(InternalError)))
  }

  /** The Fetch standard's null body statuses, for which a response may not
      carry a body: 101, 103, 204, 205 and 304. */
  predicate IsNullBodyStatus(status: int) {
    status == 101 || status == 103 || status == 204 || status == 205 || status == 304
  }

  /** `NextResponse.json(body, { status })`: the Response constructor throws a
      RangeError for a status outside 200 to 599 and a TypeError for a body
      with a null-body status; inside the handler's `try` either becomes the
      500 of the catch block. */
  function JsonResponse(body: Json, status: int): Response {
    if 200 <= status <= 599 && !IsNullBodyStatus(status) then Response(status, body) else ServerError()
  }

  /** `JSON.stringify({ text, subject })`: an undefined `subject` is omitted,
      any other value (including `null`) is passed on as received. */
  function ForwardBody(text: string, subject: Access): Json
    requires !subject.TypeError?
  {
    if subject.Value? then JObj(map["text" := JStr(text), "subject" := subject.v])
    else JObj(map["text" := JStr(text)])
  }

  /** `!text || typeof text !== "string"` is false: `text` is a non-empty string. */
  predicate IsValidText(text: Access) {
    text.Value? && text.v.JStr? && text.v.s != ""
  }

  /** The handler. `request` is what `request.json()` yields (`None`: the body
      is not JSON); `upstream` is what the one call to the scoring service
      delivers, and is not consulted when no call is made. */
  function Post(request: Option<Json>, upstream: FetchOutcome): Exchange {
    if request.None? || request.value.JNull? then
      // `request.json()` rejected, or destructuring `null` threw
      Exchange(None, ServerError())
    else
      var text := Property(request.value, "text");
      var subject := Property(request.value, "subject");
      if !IsValidText(text) then
        Exchange(None, Response(400, Envelope(JStr(InvalidInput))))
      else
        Exchange(Some(ForwardBody(text.v.s, subject)), Relay(upstream))
  }

  /** The response chosen from the scoring service's outcome. */
  function Relay(upstream: FetchOutcome): Response {
    match upstream
    case Threw => ServerError()
    case Responded(status, body) =>
      if !IsOk(status) then
        if body.None? then ServerError()
        else
          var field := Property(body.value, "error");
          if field.TypeError? then ServerError()
          else JsonResponse(Envelope(OrElse(field, JStr(BackendError))), status)
      else if body.None? then ServerError()
      else Response(200, body.value)
  }

  /** A request whose body is not JSON, or is `null`, gets the 500 envelope
      and makes no upstream call. */
  lemma MalformedRequest(request: Option<Json>, upstream: FetchOutcome)
    requires request.None? || request.value.JNull?
    ensures Post(request, upstream) == Exchange(None, ServerError())
  {
  }

  /** A falsy or non-string `text` (missing, `""`, a number, ...) gets 400
      `{error: "Invalid input"}` and makes no upstream call. */
  lemma InvalidTextRejected(request: Json, upstream: FetchOutcome)
    requires request != JNull && !IsValidText(Property(request, "text"))
    ensures Post(Some(request), upstream) == Exchange(None, Response(400, Envelope(JStr(InvalidInput))))
  {
  }

  /** Exactly one upstream call is made precisely for a non-null request with
      a non-empty string `text`, and its body carries `text` and `subject`
      exactly as received (an absent `subject` stays absent). */
  lemma ForwardedIff(request: Option<Json>, upstream: FetchOutcome)
    ensures Post(request, upstream).forwarded.Some? <==>
      request.Some? && request.value.JObj? && "text" in request.value.fields
      && request.value.fields["text"].JStr? && request.value.fields["text"].s != ""
    ensures Post(request, upstream).forwarded.Some? ==>
      var body := Post(request, upstream).forwarded.value;
      var fields := request.value.fields;
      body.JObj? && body.fields["text"] == fields["text"]
      && ("subject" in body.fields <==> "subject" in fields)
      && ("subject" in fields ==> body.fields["subject"] == fields["subject"])
      && body.fields.Keys <= {"text", "subject"}
  {
  }

  /** When no call is made, what the scoring service would have done does not matter. */
  lemma NoCallIgnoresUpstream(request: Option<Json>, u1: FetchOutcome, u2: FetchOutcome)
    requires Post(request, u1).forwarded.None?
    ensures Post(request, u1) == Post(request, u2)
  {
  }

  /** A non-ok upstream response with a parsed non-null body is relayed with
      its own status and `{error: upstream.error}` when that field is truthy,
      else `{error: "Error from backend"}`. */
  lemma UpstreamErrorRelayed(status: int, body: Json)
    requires !IsOk(status) && 200 <= status <= 599 && status != 304 && body != JNull
    ensures Relay(Responded(status, Some(body))).status == status
    ensures var field := Property(body, "error");
      Relay(Responded(status, Some(body))).body ==
        Envelope(if field.Value? && Truthy(field.v) then field.v else JStr(BackendError))
  {
  }

  /** An ok upstream response whose body parses is relayed unchanged with status 200. */
  lemma UpstreamResultRelayed(status: int, body: Json)
    requires IsOk(status)
    ensures Relay(Responded(status, Some(body))) == Response(200, body)
  {
  }

  /** Every failure of the upstream exchange — a network error, a body that
      does not parse (on either path), a `null` error body, or a status the
      Response constructor refuses — gets the 500 envelope. */
  lemma UpstreamFailures(upstream: FetchOutcome)
    requires upstream.Threw?
      || upstream.body.None?
      || (!IsOk(upstream.status) && upstream.body == Some(JNull))
      || (!IsOk(upstream.status) && !(200 <= upstream.status <= 599 && upstream.status != 304))
    ensures Relay(upstream) == ServerError()
  {
  }

  /** Every response other than a relayed ok body is an error envelope with
      the single field `error`, and a relayed ok body always has status 200. */
  lemma {:induction false} ResponsesAreResultsOrEnvelopes(request: Option<Json>, upstream: FetchOutcome)
    ensures var x := Post(request, upstream);
      x.response.status == 200 || IsErrorEnvelope(x.response.body)
    ensures var x := Post(request, upstream);
      x.response.status == 200 <==>
        x.forwarded.Some? && upstream.Responded? && IsOk(upstream.status) && upstream.body.Some?
  {
    var x := Post(request, upstream);
    assert Envelope(JStr(InternalError)).fields.Keys == {"error"};
    assert Envelope(JStr(InvalidInput)).fields.Keys == {"error"};
    if upstream.Responded? && !IsOk(upstream.status) && upstream.body.Some? {
      var field := Property(upstream.body.value, "error");
      if !field.TypeError? {
        assert Envelope(OrElse(field, JStr(BackendError))).fields.Keys == {"error"};
      }
    }
  }

  /** The worked cases: `{}` gets 400; an upstream 503 `{error: "rate limited"}`
      gets 503 with the same envelope; a network failure gets 500. */
  lemma RouteExamples()
    ensures Post(Some(JObj(map[])), Threw).response == Response(400, Envelope(JStr(InvalidInput)))
    ensures Relay(Responded(503, Some(Envelope(JStr("rate limited"))))) == Response(503, Envelope(JStr("rate limited")))
    ensures Relay(Threw) == Response(500, Envelope(JStr(InternalError)))
  {
    assert "error" in Envelope(JStr("rate limited")).fields;
  }
}
