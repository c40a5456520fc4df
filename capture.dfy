/**
 * Screenshot capture in the service's analyzer: each device takes a tab
 * from the pool, loads the page and photographs it, and always gives the
 * tab back; the desktop capture decides the outcome and the mobile capture
 * is only tried after it succeeds. Playwright's work on a tab is an input,
 * `PageRun`, saying how far it got.
 */
module Capture {
  import opened Outcomes
  import opened Pool
  import opened AccessErrors

  /** What loading and photographing one page did: both steps worked, the load failed, or the photograph failed after the load was timed. */
  datatype PageRun = Loaded(loadTime: real) | FailedBeforeLoad(message: string) | FailedAfterLoad(loadTime: real, message: string)

  /** The dictionary `_capture_single_screenshot` returns. */
  datatype Shot = Shot(success: bool, loadTime: real, error: Option<Notice>)

  /** The dictionary `_capture_screenshots` returns, without the file paths. */
  datatype Outcome = Captured(loadTime: real) | NotCaptured(loadTime: real, error: Notice)

  /** `str(e)` of what `acquire` raises. */
  function RefusalMessage(reason: AcquireError): string
  {
    match reason
    case AllBusy => "All Chromium browsers and tabs are busy. Please try again later."
    case NotStarted => "'NoneType' object has no attribute 'chromium'"
  }

  /**
   * The result of one device's capture: the refusal when no tab was handed
   * out, otherwise what the page run gave, with the load time measured up to
   * the failure.
   */
  function ShotOf(admitted: bool, reason: AcquireError, run: PageRun): (s: Shot)
    ensures s.success <==> admitted && run.Loaded?
    ensures s.success <==> s.error.None?
    ensures !admitted ==> s.loadTime == 0.0 && s.error == Some(NoticeFor(RefusalMessage(reason)))
    ensures admitted && !run.FailedBeforeLoad? ==> s.loadTime == run.loadTime
    ensures admitted && !run.Loaded? ==> s.error == Some(NoticeFor(run.message))
  {
    if !admitted then Shot(false, 0.0, Some(NoticeFor(RefusalMessage(reason))))
    else match run
      case Loaded(t) => Shot(true, t, None)
      case FailedBeforeLoad(m) => Shot(false, 0.0, Some(NoticeFor(m)))
      case FailedAfterLoad(t, m) => Shot(false, t, Some(NoticeFor(m)))
  }

  /** The capture outcome follows the desktop shot alone. */
  function OutcomeOf(desktop: Shot): (o: Outcome)
    requires desktop.success <==> desktop.error.None?
    ensures o.Captured? <==> desktop.success
    ensures o.loadTime == desktop.loadTime
    ensures o.NotCaptured? ==> Some(o.error) == desktop.error
  {
    if desktop.success then Captured(desktop.loadTime) else NotCaptured(desktop.loadTime, desktop.error.value)
  }

  /** A desktop run that loads yields a capture, whatever happens to the mobile run; otherwise the failure is reported with the time measured so far. */
  lemma CaptureFollowsDesktop(admitted: bool, desktop: PageRun)
    ensures OutcomeOf(ShotOf(admitted, AllBusy, desktop)).Captured? <==> admitted && desktop.Loaded?
    ensures admitted && desktop.FailedAfterLoad? ==>
      OutcomeOf(ShotOf(admitted, AllBusy, desktop)) == NotCaptured(desktop.loadTime, NoticeFor(desktop.message))
    ensures !admitted ==> OutcomeOf(ShotOf(admitted, AllBusy, desktop)) == NotCaptured(0.0, NoticeFor(RefusalMessage(AllBusy)))
  {
  }

  /**
   * `_capture_single_screenshot`: the page runs on a tab taken from the
   * pool, which is given back whatever happened, so the pool ends as it
   * began.
   */
  method CaptureSingle(pool: ChromiumPool, run: PageRun) returns (shot: Shot)
    requires pool.Valid()
    modifies pool
    ensures pool.Valid()
    ensures pool.browsers == old(pool.browsers) && pool.started == old(pool.started)
    ensures pool.nextPage == old(pool.nextPage) + (if old(pool.Admits()) then 1 else 0)
    ensures shot == ShotOf(old(pool.Admits()), old(pool.RefusalReason()), run)
  {
    var acquired := AcquireAndRelease(pool);
    if acquired.Refused? {
      return Shot(false, 0.0, Some(NoticeFor(RefusalMessage(acquired.reason))));
    }
    match run {
      case Loaded(t) =>
        shot := Shot(true, t, None);
      case FailedBeforeLoad(m) =>
        shot := Shot(false, 0.0, Some(NoticeFor(m)));
      case FailedAfterLoad(t, m) =>
        shot := Shot(false, t, Some(NoticeFor(m)));
    }
  }

  /**
   * `_capture_screenshots`: start the pool, capture the desktop view, and
   * only when that worked capture the mobile view, whose failure is
   * ignored. The outcome is the desktop shot's.
   */
  method CaptureScreenshots(pool: ChromiumPool, desktop: PageRun, mobile: PageRun) returns (outcome: Outcome)
    requires pool.Valid()
    modifies pool
    ensures pool.Valid() && pool.started
    ensures pool.browsers == old(pool.browsers)
    ensures var admitted := FirstWithRoom(old(pool.browsers), pool.maxTabsPerBrowser).Some? || |old(pool.browsers)| < pool.maxBrowsers;
      && outcome == OutcomeOf(ShotOf(admitted, AllBusy, desktop))
      && pool.nextPage == old(pool.nextPage) + (if !admitted then 0 else if desktop.Loaded? then 2 else 1)
  {
    pool.Start();
    var desktopShot := CaptureSingle(pool, desktop);
    if !desktopShot.success {
      return NotCaptured(desktopShot.loadTime, desktopShot.error.value);
    }
    var mobileShot := CaptureSingle(pool, mobile);
    return Captured(desktopShot.loadTime);
  }
}
