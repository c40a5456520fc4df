/**
 * `analyze_website` of the stand-alone agent script: the same pool, but
 * the tabs are taken and given back inline. A refusal from `acquire`
 * propagates to the caller; a desktop failure returns the access notice; the
 * mobile tab is only taken after the desktop capture worked. The AI
 * analysis of the screenshots is an input.
 */
module AgentAnalyzer {
  import opened Outcomes
  import opened Pool
  import opened AccessErrors
  import opened Capture

  /** The first element of the returned tuple: an access notice, or what the AI analysis returned. */
  datatype Report = AccessProblem(notice: Notice) | AiReport(text: string)

  /** `(results, load_time)`; the Lighthouse data is handed back untouched and is not modelled. */
  datatype Analysis = Analysis(results: Report, loadTime: real)

  /** What `analyze_website` returns, or the refusal it raises, when the pool would admit a tab exactly when `admitted`. */
  function AnalysisOf(admitted: bool, desktop: PageRun, aiResults: string): (r: Result<Analysis, AcquireError>)
    ensures r.Err? <==> !admitted
    ensures r.Err? ==> r.error == AllBusy
    ensures r.Ok? ==> (r.value.results.AiReport? <==> desktop.Loaded?)
    ensures r.Ok? && r.value.results.AiReport? ==> r.value.results.text == aiResults
    ensures r.Ok? && !desktop.Loaded? ==> r.value.results == AccessProblem(NoticeFor(desktop.message))
    ensures r.Ok? ==> r.value.loadTime == (if desktop.FailedBeforeLoad? then 0.0 else desktop.loadTime)
  {
    if !admitted then Err(AllBusy)
    else match desktop
      case Loaded(t) => Ok(Analysis(AiReport(aiResults), t))
      case FailedBeforeLoad(m) => Ok(Analysis(AccessProblem(NoticeFor(m)), 0.0))
      case FailedAfterLoad(t, m) => Ok(Analysis(AccessProblem(NoticeFor(m)), t))
  }

  /**
   * Whenever a tab is free, the script and the service's analyzer agree:
   * both report the same notice and load time for a failed desktop run, and
   * both go on to the AI analysis exactly when the desktop run loads.
   */
  lemma {:induction false} AgreesWithService(admitted: bool, desktop: PageRun, aiResults: string)
    requires admitted
    ensures var a := AnalysisOf(admitted, desktop, aiResults);
      var o := OutcomeOf(ShotOf(admitted, AllBusy, desktop));
      && a.Ok?
      && a.value.loadTime == o.loadTime
      && (a.value.results.AiReport? <==> o.Captured?)
      && (o.NotCaptured? ==> a.value.results == AccessProblem(o.error))
  {
  }

  /**
   * `analyze_website` from the pool onwards: every tab taken is given back,
   * on the failure path as well as the success path, so the pool ends as
   * it began, and a second tab is taken only for a desktop run that loaded.
   */
  method AnalyzeWebsite(pool: ChromiumPool, desktop: PageRun, mobile: PageRun, aiResults: string)
    returns (r: Result<Analysis, AcquireError>)
    requires pool.Valid()
    modifies pool
    ensures pool.Valid() && pool.started
    ensures pool.browsers == old(pool.browsers)
    ensures var admitted := FirstWithRoom(old(pool.browsers), pool.maxTabsPerBrowser).Some? || |old(pool.browsers)| < pool.maxBrowsers;
      && r == AnalysisOf(admitted, desktop, aiResults)
      && pool.nextPage == old(pool.nextPage) + (if !admitted then 0 else if desktop.Loaded? then 2 else 1)
  {
    pool.Start();
    var loadTime := 0.0;
    var accessible := false;
    var desktopTab := AcquireAndRelease(pool);
    if desktopTab.Refused? {
      return Err(desktopTab.reason);
    }
    match desktop {
      case Loaded(t) =>
        loadTime := t;
        accessible := true;
      case FailedBeforeLoad(m) =>
        return Ok(Analysis(AccessProblem(NoticeFor(m)), loadTime));
      case FailedAfterLoad(t, m) =>
        loadTime := t;
        return Ok(Analysis(AccessProblem(NoticeFor(m)), loadTime));
    }
    if accessible {
      var mobileTab := AcquireAndRelease(pool);
      // The desktop tab went back first, so the pool admits the mobile tab too.
      assert mobileTab.Acquired?;
    }
    return Ok(Analysis(AiReport(aiResults), loadTime));
  }
}
