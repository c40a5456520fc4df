/**
 * The analyzer's configuration record: its defaults, the viewport
 * defaults filled in after construction, and `validate`, which checks four
 * numeric settings in a fixed order and then the presence of the OpenAI
 * key. Whether `OPENAI_API_KEY` is set is a parameter.
 */
module Settings {
  import opened Outcomes
  import opened Pool

  datatype Viewport = Viewport(width: int, height: int)

  const DesktopDefault := Viewport(1920, 1080)
  const MobileDefault := Viewport(375, 667)

  const DefaultMaxBrowsers := 4
  const DefaultMaxTabsPerBrowser := 8
  const DefaultScreenshotTimeout := 30000
  const DefaultLighthouseTimeout := 300
  const DefaultLoadTimeThreshold: real := 3.0
  const DefaultPerformanceScoreThreshold := 70
  const DefaultFcpThreshold: real := 2.5

  /** The four settings `validate` requires to be positive. */
  datatype Setting = MaxBrowsers | MaxTabsPerBrowser | ScreenshotTimeout | LighthouseTimeout

  /** Position of a setting in `validate`'s order of checks. */
  function Rank(s: Setting): nat
  {
    match s
    case MaxBrowsers => 0
    case MaxTabsPerBrowser => 1
    case ScreenshotTimeout => 2
    case LighthouseTimeout => 3
  }

  /** `ValueError` naming a non-positive setting, or `EnvironmentError` for the missing key. */
  datatype ConfigError = NotPositive(setting: Setting) | MissingApiKey

  class Config {
    var maxBrowsers: int
    var maxTabsPerBrowser: int
    var screenshotTimeout: int
    var lighthouseTimeout: int
    var loadTimeThreshold: real
    var performanceScoreThreshold: int
    var fcpThreshold: real
    /** `None` until `__post_init__` runs. */
    var desktopViewport: Option<Viewport>
    var mobileViewport: Option<Viewport>

    function Value(s: Setting): int
      reads this
    {
      match s
      case MaxBrowsers => maxBrowsers
      case MaxTabsPerBrowser => maxTabsPerBrowser
      case ScreenshotTimeout => screenshotTimeout
      case LighthouseTimeout => lighthouseTimeout
    }

    /** The generated initialiser: every field as given, then `__post_init__`. */
    constructor (maxBrowsers: int, maxTabsPerBrowser: int, screenshotTimeout: int, lighthouseTimeout: int,
                 loadTimeThreshold: real, performanceScoreThreshold: int, fcpThreshold: real,
                 desktopViewport: Option<Viewport>, mobileViewport: Option<Viewport>)
      ensures this.maxBrowsers == maxBrowsers && this.maxTabsPerBrowser == maxTabsPerBrowser
      ensures this.screenshotTimeout == screenshotTimeout && this.lighthouseTimeout == lighthouseTimeout
      ensures this.loadTimeThreshold == loadTimeThreshold && this.performanceScoreThreshold == performanceScoreThreshold
      ensures this.fcpThreshold == fcpThreshold
      ensures this.desktopViewport == Some(if desktopViewport.None? then DesktopDefault else desktopViewport.value)
      ensures this.mobileViewport == Some(if mobileViewport.None? then MobileDefault else mobileViewport.value)
    {
      this.maxBrowsers := maxBrowsers;
      this.maxTabsPerBrowser := maxTabsPerBrowser;
      this.screenshotTimeout := screenshotTimeout;
      this.lighthouseTimeout := lighthouseTimeout;
      this.loadTimeThreshold := loadTimeThreshold;
      this.performanceScoreThreshold := performanceScoreThreshold;
      this.fcpThreshold := fcpThreshold;
      this.desktopViewport := desktopViewport;
      this.mobileViewport := mobileViewport;
      new;
      PostInit();
    }

    /** `Config()`: every field at its default. */
    constructor Default()
      ensures maxBrowsers == DefaultMaxBrowsers && maxTabsPerBrowser == DefaultMaxTabsPerBrowser
      ensures screenshotTimeout == DefaultScreenshotTimeout && lighthouseTimeout == DefaultLighthouseTimeout
      ensures loadTimeThreshold == DefaultLoadTimeThreshold && performanceScoreThreshold == DefaultPerformanceScoreThreshold
      ensures fcpThreshold == DefaultFcpThreshold
      ensures desktopViewport == Some(DesktopDefault) && mobileViewport == Some(MobileDefault)
    {
      maxBrowsers := DefaultMaxBrowsers;
      maxTabsPerBrowser := DefaultMaxTabsPerBrowser;
      screenshotTimeout := DefaultScreenshotTimeout;
      lighthouseTimeout := DefaultLighthouseTimeout;
      loadTimeThreshold := DefaultLoadTimeThreshold;
      performanceScoreThreshold := DefaultPerformanceScoreThreshold;
      fcpThreshold := DefaultFcpThreshold;
      desktopViewport := None;
      mobileViewport := None;
      new;
      PostInit();
    }

    /** `__post_init__`: a missing viewport gets its default, a given one is kept; nothing else changes. */
    method PostInit()
      modifies this
      ensures desktopViewport == Some(if old(desktopViewport).None? then DesktopDefault else old(desktopViewport).value)
      ensures mobileViewport == Some(if old(mobileViewport).None? then MobileDefault else old(mobileViewport).value)
      ensures maxBrowsers == old(maxBrowsers) && maxTabsPerBrowser == old(maxTabsPerBrowser)
      ensures screenshotTimeout == old(screenshotTimeout) && lighthouseTimeout == old(lighthouseTimeout)
      ensures loadTimeThreshold == old(loadTimeThreshold) && performanceScoreThreshold == old(performanceScoreThreshold)
      ensures fcpThreshold == old(fcpThreshold)
    {
      if desktopViewport.None? {
        desktopViewport := Some(DesktopDefault);
      }
      if mobileViewport.None? {
        mobileViewport := Some(MobileDefault);
      }
    }

    /**
     * `validate`: the first non-positive setting in the order of checks, else
     * the missing key, else nothing. Being a function of the fields, it
     * changes none of them.
     */
    function Validate(apiKeySet: bool): (r: Option<ConfigError>)
      reads this
      ensures r.None? <==> (forall s :: Value(s) > 0) && apiKeySet
      ensures r.Some? && r.value.NotPositive? ==>
        Value(r.value.setting) <= 0 && forall s :: Rank(s) < Rank(r.value.setting) ==> Value(s) > 0
      ensures r == Some(MissingApiKey) <==> (forall s :: Value(s) > 0) && !apiKeySet
    {
      if maxBrowsers <= 0 then Some(NotPositive(MaxBrowsers))
      else if maxTabsPerBrowser <= 0 then Some(NotPositive(MaxTabsPerBrowser))
      else if screenshotTimeout <= 0 then Some(NotPositive(ScreenshotTimeout))
      else if lighthouseTimeout <= 0 then Some(NotPositive(LighthouseTimeout))
      else if !apiKeySet then Some(MissingApiKey)
      else None
    }
  }

  /** The default settings pass every numeric check, so only the key decides. */
  lemma DefaultsPass(c: Config)
    requires c.maxBrowsers == DefaultMaxBrowsers && c.maxTabsPerBrowser == DefaultMaxTabsPerBrowser
    requires c.screenshotTimeout == DefaultScreenshotTimeout && c.lighthouseTimeout == DefaultLighthouseTimeout
    ensures c.Validate(true).None?
    ensures c.Validate(false) == Some(MissingApiKey)
  {
  }

  /** A pool built from a configuration that passed `validate` has exactly the configured caps. */
  lemma ValidatedPoolCaps(c: Config, apiKeySet: bool, pool: ChromiumPool)
    requires c.Validate(apiKeySet).None?
    requires pool.maxBrowsers == c.maxBrowsers && pool.maxTabsPerBrowser == c.maxTabsPerBrowser
    ensures pool.EntryCap() == c.maxBrowsers && pool.TabCap() == c.maxTabsPerBrowser
  {
    assert c.Value(MaxBrowsers) > 0 && c.Value(MaxTabsPerBrowser) > 0;
  }
}
