/** The form and the proxy route together: what the client sends always
    passes the route's check, and what the route answers is what the form
    then shows. */
module Flow {
  import opened Js
  import opened Sanitizer
  import opened Analyzer
  import opened AnalyzeRoute

  /** The route's response as the form's `fetch` delivers it: the route always
      answers with a JSON body, so `response.json()` resolves. */
  function AsSeenByClient(r: Response): FetchOutcome {
    Responded(r.status, Some(r.body))
  }

  /** Validation happens twice: any request the form sends passes the route's
      own check, and the route forwards it unchanged, with `subject: null`
      for an empty subject. */
  lemma ClientRequestForwarded(text: string, subject: string, upstream: FetchOutcome)
    requires IsValidInput(text, subject)
    ensures Post(Some(RequestBody(text, subject)), upstream).forwarded == Some(RequestBody(text, subject))
    ensures subject == "" ==> RequestBody(text, subject).fields["subject"] == JNull
  {
    SanitizeLength(text);
    var req := RequestBody(text, subject);
    assert Property(req, "text") == Value(JStr(SanitizeInput(text)));
    assert req.fields.Keys == {"text", "subject"};
    var fwd := Post(Some(req), upstream).forwarded.value;
    assert fwd.fields.Keys == {"text", "subject"};
  }

  /** Whatever the request and the upstream outcome, the form ends up either
      storing the relayed body (status 200) or showing exactly the `error`
      field of the route's envelope; it never falls back to its own generic
      message for a response from this route. */
  lemma ClientShowsRouteResponse(request: Option<Json>, upstream: FetchOutcome)
    ensures var r := Post(request, upstream).response;
      r.status == 200 ==> OutcomeResult(AsSeenByClient(r)) == Some(r.body)
    ensures var r := Post(request, upstream).response;
      r.status != 200 ==> OutcomeError(AsSeenByClient(r)) == Some(r.body.fields["error"])
  {
    var r := Post(request, upstream).response;
    ResponsesAreResultsOrEnvelopes(request, upstream);
    if r.status != 200 {
      assert !IsOk(r.status);
      assert Truthy(r.body.fields["error"]);
    }
  }

  /** A network failure between the route and the scoring service reaches the
      form as the route's "Internal server error", not the form's generic message. */
  lemma UpstreamNetworkFailureShown(text: string, subject: string)
    requires IsValidInput(text, subject)
    ensures OutcomeError(AsSeenByClient(Post(Some(RequestBody(text, subject)), Threw).response))
      == Some(JStr(InternalError))
  {
    ClientRequestForwarded(text, subject, Threw);
    var r := Post(Some(RequestBody(text, subject)), Threw).response;
    assert r == ServerError();
    assert Property(r.body, "error") == Value(JStr(InternalError));
  }

  /** An ok answer of the scoring service reaches the form as its result. */
  lemma UpstreamResultShown(text: string, subject: string, status: int, body: Json)
    requires IsValidInput(text, subject) && IsOk(status)
    ensures OutcomeResult(AsSeenByClient(Post(Some(RequestBody(text, subject)), Responded(status, Some(body))).response))
      == Some(body)
  {
    ClientRequestForwarded(text, subject, Responded(status, Some(body)));
    assert Post(Some(RequestBody(text, subject)), Responded(status, Some(body))).response == Response(200, body);
  }
}
