/**
 * The older HTTP service of the agent: an API-key dependency that accepts
 * every request, `/analyze` with its pool check, issue extraction loop and
 * Lighthouse block, and `/health`. The analyzer run is an input.
 */
module Server {
  import opened Outcomes
  import opened Text
  import opened Issues
  import opened Responses

  /** `verify_api_key`: it returns `True` before looking at anything. */
  function VerifyApiKey(apiKey: Option<string>, expected: Option<string>): (accepted: bool)
    ensures accepted
  {
    true
  }

  /** The checks written after that `return`: none configured accepts, else a missing key is 401 and a wrong one 403. */
  function UnreachableKeyCheck(apiKey: Option<string>, expected: Option<string>): (r: Result<bool, int>)
    ensures r.Ok? <==> expected.None? || expected.value == [] || (apiKey.Some? && apiKey.value != [] && apiKey == expected)
    ensures r.Err? ==> r.error in {401, 403}
    ensures r == Err(401) <==> expected.Some? && expected.value != [] && (apiKey.None? || apiKey.value == [])
  {
    if expected.None? || expected.value == [] then Ok(true)
    else if apiKey.None? || apiKey.value == [] then Err(401)
    else if apiKey != expected then Err(403)
    else Ok(true)
  }

  /** Because of the early return, a request with a wrong key is let through where the check below it would answer 403. */
  lemma WrongKeyIsAccepted(apiKey: string, expected: string)
    requires apiKey != [] && expected != [] && apiKey != expected
    ensures VerifyApiKey(Some(apiKey), Some(expected))
    ensures UnreachableKeyCheck(Some(apiKey), Some(expected)) == Err(403)
  {
  }

  /** An HTTP reply: the success body, or an `HTTPException` status with its detail. */
  datatype Reply = Ok200(response: Response) | HttpError(status: int, detail: string)

  /** How `analyzer.analyze_website(url)` ended: it raised with message `message`, or returned. */
  datatype AnalyzerRun = Raised(message: string) | Returned(results: string, loadTime: real, lighthouse: Option<LighthouseData>)

  /**
   * `POST /analyze`: 503 without a pool, 500 with the exception's text when
   * the analysis raises, otherwise the body with the issue lines and the
   * Lighthouse block.
   */
  method Analyze(url: string, poolReady: bool, run: AnalyzerRun) returns (reply: Reply)
    ensures !poolReady ==> reply == HttpError(503, "Browser pool not initialized")
    ensures poolReady && run.Raised? ==> reply == HttpError(500, "Analysis failed: " + run.message)
    ensures reply.Ok200? <==> poolReady && run.Returned?
    ensures reply.Ok200? ==>
      && reply.response.url == url && reply.response.loadTime == run.loadTime
      && reply.response.issues == IssueLines(run.results)
      && reply.response.lighthouse == BlockOf(run.lighthouse)
  {
    if !poolReady {
      return HttpError(503, "Browser pool not initialized");
    }
    match run {
      case Raised(message) =>
        return HttpError(500, "Analysis failed: " + message);
      case Returned(results, loadTime, lighthouse) =>
        var issues := ExtractIssues(results);
        var response := BuildResponse(url, loadTime, issues, lighthouse);
        return Ok200(response);
    }
  }

  /** `GET /health`: the status code it answers with. */
  function Health(poolReady: bool): (status: int)
    ensures status == 503 <==> !poolReady
    ensures poolReady ==> status == 200
  {
    if !poolReady then 503 else 200
  }
}
