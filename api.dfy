/**
 * The HTTP service in front of the analyzer: the extra URL checks of the
 * request model, the error classes with their codes and statuses, the
 * structured error body, and the `/analyze` endpoint that ties them to the
 * analyzer's result. The analyzer run itself, with its five-minute limit,
 * is an input; the time stamp is a parameter.
 */
module Api {
  import opened Outcomes
  import opened Text
  import opened Urls
  import opened Issues
  import opened Responses

  /** An `AnalysisError` or one of its subclasses; `url` is set only for `WebsiteAccessError`. */
  datatype AnalysisError = AnalysisError(message: string, errorCode: string, statusCode: int, url: Option<string>)

  /** `AnalysisError(message, error_code="ANALYSIS_ERROR", status_code=500)` */
  function NewAnalysisError(message: string, errorCode: string := "ANALYSIS_ERROR", statusCode: int := 500): (e: AnalysisError)
    ensures e.message == message && e.errorCode == errorCode && e.statusCode == statusCode && e.url.None?
  {
    AnalysisError(message, errorCode, statusCode, None)
  }

  function NewWebsiteAccessError(message: string, url: string): (e: AnalysisError)
    ensures e.message == message && e.url == Some(url)
    ensures e.errorCode == "WEBSITE_ACCESS_ERROR" && e.statusCode == 400
  {
    var base := NewAnalysisError(message, "WEBSITE_ACCESS_ERROR", 400);
    base.(url := Some(url))
  }

  function NewResourceUnavailableError(message: string): (e: AnalysisError)
    ensures e.message == message && e.url.None?
    ensures e.errorCode == "RESOURCE_UNAVAILABLE" && e.statusCode == 503
  {
    NewAnalysisError(message, "RESOURCE_UNAVAILABLE", 503)
  }

  function NewValidationError(message: string): (e: AnalysisError)
    ensures e.message == message && e.url.None?
    ensures e.errorCode == "VALIDATION_ERROR" && e.statusCode == 400
  {
    NewAnalysisError(message, "VALIDATION_ERROR", 400)
  }

  /** The four classes are told apart by their codes, and the two client-side classes are the 400s. */
  lemma ErrorClassesDistinct(m: string, url: string)
    ensures var codes := [NewAnalysisError(m).errorCode, NewWebsiteAccessError(m, url).errorCode,
                          NewResourceUnavailableError(m).errorCode, NewValidationError(m).errorCode];
      forall i, j :: 0 <= i < j < |codes| ==> codes[i] != codes[j]
    ensures NewAnalysisError(m).statusCode == 500 && NewResourceUnavailableError(m).statusCode == 503
    ensures NewWebsiteAccessError(m, url).statusCode == NewValidationError(m).statusCode == 400
  {
  }

  /** The structured error body; `details` holds only the status code. */
  datatype ErrorResponse = ErrorResponse(errorCode: string, message: string, statusCode: int, timestamp: string)

  /** `create_error_response`, with the clock reading passed in. */
  function CreateErrorResponse(error: AnalysisError, now: string): (r: ErrorResponse)
    ensures r.errorCode == error.errorCode && r.message == error.message
    ensures r.statusCode == error.statusCode && r.timestamp == now
  {
    ErrorResponse(error.errorCode, error.message, error.statusCode, now)
  }

  const MaxUrlLength := 2048
  const BlockedHosts: seq<string> := ["localhost", "127.0.0.1", "0.0.0.0"]

  const NoSchemeMessage := "URL must start with http:// or https://"
  const BlockedHostMessage := "Localhost and private IP addresses are not allowed"
  const TooLongMessage := "URL is too long (maximum 2048 characters)"

  /** Some blocked host name occurs in the lower-cased URL. */
  predicate NamesBlockedHost(url: string)
  {
    exists i :: 0 <= i < |BlockedHosts| && Contains(Lower(url), BlockedHosts[i])
  }

  /** `validate_url`: scheme first, then the blocked hosts, then the length; the first failing check raises. */
  function ValidateUrl(url: string): (r: Option<AnalysisError>)
    ensures r.None? <==> HasScheme(url) && !NamesBlockedHost(url) && |url| <= MaxUrlLength
    ensures r.Some? ==> r.value.errorCode == "VALIDATION_ERROR" && r.value.statusCode == 400
    ensures !HasScheme(url) ==> r == Some(NewValidationError(NoSchemeMessage))
    ensures HasScheme(url) && NamesBlockedHost(url) ==> r == Some(NewValidationError(BlockedHostMessage))
    ensures HasScheme(url) && !NamesBlockedHost(url) && |url| > MaxUrlLength ==> r == Some(NewValidationError(TooLongMessage))
  {
    if !HasScheme(url) then Some(NewValidationError(NoSchemeMessage))
    else if NamesBlockedHost(url) then Some(NewValidationError(BlockedHostMessage))
    else if |url| > MaxUrlLength then Some(NewValidationError(TooLongMessage))
    else None
  }

  /** A blocked host written in any mix of cases, anywhere after a scheme, is refused. */
  lemma {:induction false} BlockedHostRejectedAnywhere(pre: string, host: string, post: string, i: nat)
    requires i < |BlockedHosts| && Lower(host) == BlockedHosts[i]
    requires HasScheme(pre + host + post)
    ensures ValidateUrl(pre + host + post) == Some(NewValidationError(BlockedHostMessage))
  {
    LowerConcat(pre + host, post);
    LowerConcat(pre, host);
    ContainsInfix(Lower(pre), Lower(host), Lower(post));
    assert Contains(Lower(pre + host + post), BlockedHosts[i]);
  }

  /** A URL of exactly 2048 characters passes when the other checks do; one more character is refused. */
  lemma LengthLimitIsInclusive(url: string, c: char)
    requires HasScheme(url) && !NamesBlockedHost(url) && !NamesBlockedHost(url + [c])
    requires |url| == MaxUrlLength
    ensures ValidateUrl(url).None?
    ensures ValidateUrl(url + [c]) == Some(NewValidationError(TooLongMessage))
  {
    assert (url + [c])[..|"http://"|] == url[..|"http://"|];
    assert (url + [c])[..|"https://"|] == url[..|"https://"|];
  }

  /** What the analyzer returned as `results`: text, a dictionary with a `lighthouse_error` entry, or another value. */
  datatype Results = TextResults(text: string) | LighthouseErrorResults(detail: string) | OtherResults

  /** The issue list: the stripped non-blank lines when `results` is a non-blank string, otherwise empty. */
  function IssuesOf(results: Results): (issues: seq<string>)
    ensures results.TextResults? ==> issues == IssueLines(results.text)
    ensures !results.TextResults? ==> issues == []
  {
    if results.TextResults? && results.text != [] && Strip(results.text) != [] then
      IssueLines(results.text)
    else if results.TextResults? then
      StrippedEmptyNoIssues(results.text);
      []
    else []
  }

  /** How `analyzer.analyze_website(url)` ended under its five-minute limit. */
  datatype AnalyzerRun =
    | TimedOut
    | Raised
    | Returned(results: Results, loadTime: real, lighthouse: Option<LighthouseData>)

  datatype Reply = Success(response: Response) | Failure(error: ErrorResponse)

  const PoolMissingMessage := "Browser pool not initialized. Please try again later."
  const TimeoutMessage := "Analysis timed out after 5 minutes. The website may be too slow or unresponsive."
  const InternalMessage := "An unexpected error occurred during analysis. Please try again later."

  /**
   * `POST /analyze`: validation, the pool check, the run, the Lighthouse
   * error check, then the success body. Every raised `AnalysisError` is
   * turned into its structured error body; anything else becomes the
   * internal error.
   */
  method AnalyzeWebsite(url: string, poolReady: bool, run: AnalyzerRun, now: string) returns (reply: Reply)
    ensures ValidateUrl(url).Some? ==> reply == Failure(CreateErrorResponse(ValidateUrl(url).value, now))
    ensures ValidateUrl(url).None? && !poolReady ==>
      reply == Failure(CreateErrorResponse(NewResourceUnavailableError(PoolMissingMessage), now))
    ensures ValidateUrl(url).None? && poolReady && run.TimedOut? ==>
      reply == Failure(CreateErrorResponse(NewAnalysisError(TimeoutMessage, "TIMEOUT_ERROR", 408), now))
    ensures ValidateUrl(url).None? && poolReady && run.Raised? ==>
      reply == Failure(CreateErrorResponse(NewAnalysisError(InternalMessage, "INTERNAL_ERROR", 500), now))
    ensures ValidateUrl(url).None? && poolReady && run.Returned? && run.results.LighthouseErrorResults? ==>
      reply == Failure(CreateErrorResponse(
        NewAnalysisError("Performance analysis failed: " + run.results.detail, "LIGHTHOUSE_ERROR", 422), now))
    ensures reply.Success? <==>
      ValidateUrl(url).None? && poolReady && run.Returned? && !run.results.LighthouseErrorResults?
    ensures reply.Success? ==>
      reply.response == Response(url, run.loadTime, IssuesOf(run.results), BlockOf(run.lighthouse))
    ensures reply.Failure? ==> reply.error.statusCode in {400, 408, 422, 500, 503}
  {
    var invalid := ValidateUrl(url);
    if invalid.Some? {
      return Failure(CreateErrorResponse(invalid.value, now));
    }
    if !poolReady {
      return Failure(CreateErrorResponse(NewResourceUnavailableError(PoolMissingMessage), now));
    }
    match run {
      case TimedOut =>
        return Failure(CreateErrorResponse(NewAnalysisError(TimeoutMessage, "TIMEOUT_ERROR", 408), now));
      case Raised =>
        return Failure(CreateErrorResponse(NewAnalysisError(InternalMessage, "INTERNAL_ERROR", 500), now));
      case Returned(results, loadTime, lighthouse) =>
        if results.LighthouseErrorResults? {
          var error := NewAnalysisError("Performance analysis failed: " + results.detail, "LIGHTHOUSE_ERROR", 422);
          return Failure(CreateErrorResponse(error, now));
        }
        var issues := IssuesOf(results);
        var response := BuildResponse(url, loadTime, issues, lighthouse);
        return Success(response);
    }
  }
}
