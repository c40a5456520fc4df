/**
 * The Chromium pool: a list of `(browser, pages)` entries, at most
 * `max_browsers` of them, each holding the tabs opened in that browser.
 * `acquire` opens a tab in the first browser with a free slot, or launches
 * a new browser, or refuses; `release` closes a tab and drops a browser left
 * without tabs; `close` forgets everything. Browsers and tabs are opaque
 * identifiers drawn from two counters.
 */
module Pool {
  import opened Outcomes
  import opened Text

  type BrowserId = nat
  type PageId = nat

  /** One `(browser, pages)` pair of the pool's list. */
  datatype Entry = Entry(browser: BrowserId, pages: seq<PageId>)

  /** Why `acquire` raised: every slot is taken (`RuntimeError`), or Playwright was never started (`AttributeError` on `None`). */
  datatype AcquireError = AllBusy | NotStarted

  datatype Acquisition = Acquired(browser: BrowserId, page: PageId) | Refused(reason: AcquireError)

  /** Index of the first entry with fewer than `maxTabs` pages, if any. */
  function FirstWithRoom(es: seq<Entry>, maxTabs: int): (r: Option<nat>)
    ensures r.Some? ==> r.value < |es| && |es[r.value].pages| < maxTabs
    ensures r.Some? ==> forall j :: 0 <= j < r.value ==> |es[j].pages| >= maxTabs
    ensures r.None? <==> forall j :: 0 <= j < |es| ==> |es[j].pages| >= maxTabs
  {
    if es == [] then None
    else if |es[0].pages| < maxTabs then Some(0)
    else match FirstWithRoom(es[1..], maxTabs)
      case None => None
      case Some(i) => Some(i + 1)
  }

  /** Index of the first entry that holds page `p`, if any. */
  function FindOwner(es: seq<Entry>, p: PageId): (r: Option<nat>)
    ensures r.Some? ==> r.value < |es| && p in es[r.value].pages
    ensures r.Some? ==> forall j :: 0 <= j < r.value ==> p !in es[j].pages
    ensures r.None? <==> forall j :: 0 <= j < |es| ==> p !in es[j].pages
  {
    if es == [] then None
    else if p in es[0].pages then Some(0)
    else match FindOwner(es[1..], p)
      case None => None
      case Some(i) => Some(i + 1)
  }

  /** Number of open tabs over all browsers. */
  function TotalPages(es: seq<Entry>): nat
  {
    if es == [] then 0 else |es[0].pages| + TotalPages(es[1..])
  }

  /** Every open tab of the pool. */
  ghost function PageSet(es: seq<Entry>): set<PageId>
  {
    set i, x | 0 <= i < |es| && x in es[i].pages :: x
  }

  /** No tab is listed twice within one browser. */
  ghost predicate NoDup(ps: seq<PageId>)
  {
    forall k, l :: 0 <= k < l < |ps| ==> ps[k] != ps[l]
  }

  /** No tab is listed under two browsers. */
  ghost predicate Disjoint(es: seq<Entry>)
  {
    forall i, j, x :: 0 <= i < |es| && 0 <= j < |es| && i != j && x in es[i].pages ==> x !in es[j].pages
  }

  /** No tab is listed twice, in one browser or across two. */
  ghost predicate PagesDistinct(es: seq<Entry>)
  {
    (forall i :: 0 <= i < |es| ==> NoDup(es[i].pages)) && Disjoint(es)
  }

  /** No browser is listed twice. */
  ghost predicate BrowsersDistinct(es: seq<Entry>)
  {
    forall i, j :: 0 <= i < |es| && 0 <= j < |es| && es[i].browser == es[j].browser ==> i == j
  }

  /**
   * The pool invariant over an entry list: at most `entryCap` entries, each
   * with between 1 and `tabCap` tabs, no tab or browser twice, and every
   * identifier below the counter it was drawn from.
   */
  ghost predicate WellFormed(es: seq<Entry>, entryCap: nat, tabCap: nat, nextBrowser: nat, nextPage: nat)
  {
    && |es| <= entryCap
    && (forall i :: 0 <= i < |es| ==> 1 <= |es[i].pages| <= tabCap)
    && PagesDistinct(es)
    && BrowsersDistinct(es)
    && (forall i, x :: 0 <= i < |es| && x in es[i].pages ==> x < nextPage)
    && (forall i :: 0 <= i < |es| ==> es[i].browser < nextBrowser)
  }

  /** When every browser holds at most `cap` tabs, the pool holds at most `|es| * cap` tabs. */
  lemma {:induction false} TotalPagesBound(es: seq<Entry>, cap: nat)
    requires forall i :: 0 <= i < |es| ==> |es[i].pages| <= cap
    ensures TotalPages(es) <= |es| * cap
    decreases |es|
  {
    if es != [] {
      TotalPagesBound(es[1..], cap);
    }
  }

  /** The entry list after a fresh tab `np` is opened in entry `i`. */
  function WithPage(es: seq<Entry>, i: nat, np: PageId): (r: seq<Entry>)
    requires i < |es|
    ensures |r| == |es| && r[i].pages == es[i].pages + [np]
    ensures forall a :: 0 <= a < |es| && a != i ==> r[a] == es[a]
    ensures forall a :: 0 <= a < |es| ==> r[a].browser == es[a].browser
  {
    es[i := Entry(es[i].browser, es[i].pages + [np])]
  }

  /** Opening fresh tab `np` in entry `i` keeps the tabs pairwise distinct. */
  lemma WithPageDistinct(es: seq<Entry>, i: nat, np: PageId)
    requires i < |es| && PagesDistinct(es)
    requires forall a, x :: 0 <= a < |es| && x in es[a].pages ==> x < np
    ensures PagesDistinct(WithPage(es, i, np))
  {
    var es' := WithPage(es, i, np);
    var ps := es[i].pages;
    assert np !in ps;
    forall k, l | 0 <= k < l < |es'[i].pages| ensures es'[i].pages[k] != es'[i].pages[l] {
      if l < |ps| {
        assert es'[i].pages[k] == ps[k] && es'[i].pages[l] == ps[l];
      } else {
        assert es'[i].pages[k] == ps[k];
      }
    }
    forall a, b, x | 0 <= a < |es'| && 0 <= b < |es'| && a != b && x in es'[a].pages
      ensures x !in es'[b].pages
    {
      if a == i {
        assert x in ps || x == np;
        assert es'[b] == es[b];
      } else {
        assert x in es[a].pages;
        assert x != np;
      }
    }
  }

  /** Opening fresh tab `np` adds exactly `np` to the open tabs. */
  lemma WithPageSet(es: seq<Entry>, i: nat, np: PageId)
    requires i < |es|
    ensures PageSet(WithPage(es, i, np)) == PageSet(es) + {np}
  {
    var es' := WithPage(es, i, np);
    forall x | x in PageSet(es') ensures x in PageSet(es) + {np} {
      var a :| 0 <= a < |es'| && x in es'[a].pages;
      if a != i || x != np {
        assert x in es[a].pages;
      }
    }
    forall x | x in PageSet(es) + {np} ensures x in PageSet(es') {
      if x == np {
        assert x in es'[i].pages;
      } else {
        var a :| 0 <= a < |es| && x in es[a].pages;
        assert x in es'[a].pages;
      }
    }
  }

  /** Opening fresh tab `np` in entry `i`, which has room, keeps the invariant and adds exactly `np` to the open tabs. */
  lemma AddPageKeepsWellFormed(es: seq<Entry>, i: nat, entryCap: nat, tabCap: nat, nb: nat, np: nat)
    requires WellFormed(es, entryCap, tabCap, nb, np)
    requires i < |es| && |es[i].pages| < tabCap
    ensures WellFormed(WithPage(es, i, np), entryCap, tabCap, nb, np + 1)
    ensures PageSet(WithPage(es, i, np)) == PageSet(es) + {np}
    ensures np !in PageSet(es)
  {
    var es' := WithPage(es, i, np);
    WithPageDistinct(es, i, np);
    WithPageSet(es, i, np);
    forall a, x | 0 <= a < |es'| && x in es'[a].pages ensures x < np + 1 {
      if a != i || x != np {
        assert x in es[a].pages;
      }
    }
  }

  /** Appending an entry for fresh browser `nb` with the single fresh tab `np` keeps browsers and tabs distinct. */
  lemma AddEntryDistinct(es: seq<Entry>, entryCap: nat, tabCap: nat, nb: nat, np: nat)
    requires WellFormed(es, entryCap, tabCap, nb, np)
    ensures PagesDistinct(es + [Entry(nb, [np])]) && BrowsersDistinct(es + [Entry(nb, [np])])
  {
    var es' := es + [Entry(nb, [np])];
    forall a, b, x | 0 <= a < |es'| && 0 <= b < |es'| && a != b && x in es'[a].pages
      ensures x !in es'[b].pages
    {
      if a < |es| && b < |es| {
        assert es'[a] == es[a] && es'[b] == es[b];
      } else if a < |es| {
        assert x in es[a].pages;
      } else {
        assert es'[b] == es[b];
      }
    }
    forall a, b | 0 <= a < |es'| && 0 <= b < |es'| && es'[a].browser == es'[b].browser
      ensures a == b
    {
      if a < |es| {
        assert es'[a] == es[a];
      }
      if b < |es| {
        assert es'[b] == es[b];
      }
    }
  }

  /** Launching fresh browser `nb` with the single fresh tab `np` keeps the invariant and adds exactly `np`. */
  lemma AddEntryKeepsWellFormed(es: seq<Entry>, entryCap: nat, tabCap: nat, nb: nat, np: nat)
    requires WellFormed(es, entryCap, tabCap, nb, np)
    requires |es| < entryCap && 1 <= tabCap
    ensures var es' := es + [Entry(nb, [np])];
      && WellFormed(es', entryCap, tabCap, nb + 1, np + 1)
      && PageSet(es') == PageSet(es) + {np}
      && np !in PageSet(es)
  {
    var es' := es + [Entry(nb, [np])];
    AddEntryDistinct(es, entryCap, tabCap, nb, np);
    assert forall a :: 0 <= a < |es| ==> es'[a] == es[a];
    forall x | x in PageSet(es') ensures x in PageSet(es) + {np} {
      var a :| 0 <= a < |es'| && x in es'[a].pages;
      if a < |es| {
        assert x in es[a].pages;
      }
    }
    forall x | x in PageSet(es) + {np} ensures x in PageSet(es') {
      if x == np {
        assert x in es'[|es|].pages;
      } else {
        var a :| 0 <= a < |es| && x in es[a].pages;
        assert x in es'[a].pages;
      }
    }
  }

  /** Removing the first `p` from a tab list without duplicates removes `p` and nothing else. */
  lemma RemovePage(ps: seq<PageId>, p: PageId)
    requires p in ps && NoDup(ps)
    ensures |RemoveFirst(ps, p)| == |ps| - 1
    ensures NoDup(RemoveFirst(ps, p))
    ensures forall x :: x in RemoveFirst(ps, p) <==> x in ps && x != p
  {
    var at := IndexOf(ps, p);
    var rest := RemoveFirst(ps, p);
    assert rest == ps[..at] + ps[at + 1..];
    assert |rest| == |ps| - 1;
    forall k | 0 <= k < |rest| ensures rest[k] == ps[if k < at then k else k + 1] {
      if k < at {
        assert rest[k] == ps[..at][k];
      } else {
        assert rest[k] == ps[at + 1..][k - at];
      }
    }
    forall k, l | 0 <= k < l < |rest| ensures rest[k] != rest[l] {
      assert rest[k] == ps[if k < at then k else k + 1];
      assert rest[l] == ps[if l < at then l else l + 1];
    }
    forall x | x in rest ensures x in ps && x != p {
      var k :| 0 <= k < |rest| && rest[k] == x;
      assert rest[k] == ps[if k < at then k else k + 1];
    }
    forall x | x in ps && x != p ensures x in rest {
      var k :| 0 <= k < |ps| && ps[k] == x;
      assert k != at;
      assert rest[if k < at then k else k - 1] == x;
    }
  }

  /** The entry list after `release(p)` closes tab `p` of entry `i`. */
  function AfterRelease(es: seq<Entry>, i: nat, p: PageId): seq<Entry>
    requires i < |es|
  {
    var rest := RemoveFirst(es[i].pages, p);
    if rest == [] then es[..i] + es[i + 1..] else es[i := Entry(es[i].browser, rest)]
  }

  /** Dropping entry `i` keeps the invariant: what held of every entry holds of those that remain. */
  lemma DropKeepsWellFormed(es: seq<Entry>, i: nat, entryCap: nat, tabCap: nat, nb: nat, np: nat)
    requires WellFormed(es, entryCap, tabCap, nb, np)
    requires i < |es|
    ensures WellFormed(es[..i] + es[i + 1..], entryCap, tabCap, nb, np)
  {
    var es' := es[..i] + es[i + 1..];
    forall a | 0 <= a < |es'| ensures es'[a] == es[if a < i then a else a + 1] {
      if a < i {
        assert es'[a] == es[..i][a];
      } else {
        assert es'[a] == es[i + 1..][a - i];
      }
    }
    forall a | 0 <= a < |es'|
      ensures 1 <= |es'[a].pages| <= tabCap && NoDup(es'[a].pages) && es'[a].browser < nb
      ensures forall x :: x in es'[a].pages ==> x < np
    {
      assert es'[a] == es[if a < i then a else a + 1];
    }
    forall a, b, x | 0 <= a < |es'| && 0 <= b < |es'| && a != b && x in es'[a].pages
      ensures x !in es'[b].pages
    {
      assert es'[a] == es[if a < i then a else a + 1];
      assert es'[b] == es[if b < i then b else b + 1];
    }
    forall a, b | 0 <= a < |es'| && 0 <= b < |es'| && es'[a].browser == es'[b].browser
      ensures a == b
    {
      assert es'[a] == es[if a < i then a else a + 1];
      assert es'[b] == es[if b < i then b else b + 1];
    }
  }

  /** Dropping entry `i`, whose only tab is `p`, keeps the invariant and removes exactly `p`. */
  lemma DropEntryKeepsWellFormed(es: seq<Entry>, i: nat, p: PageId, entryCap: nat, tabCap: nat, nb: nat, np: nat)
    requires WellFormed(es, entryCap, tabCap, nb, np)
    requires i < |es| && forall x :: x in es[i].pages <==> x == p
    ensures WellFormed(es[..i] + es[i + 1..], entryCap, tabCap, nb, np)
    ensures PageSet(es[..i] + es[i + 1..]) == PageSet(es) - {p}
  {
    DropKeepsWellFormed(es, i, entryCap, tabCap, nb, np);
    var es' := es[..i] + es[i + 1..];
    assert forall a :: 0 <= a < |es'| ==> es'[a] == es[if a < i then a else a + 1];
    forall x | x in PageSet(es') ensures x in PageSet(es) - {p} {
      var a :| 0 <= a < |es'| && x in es'[a].pages;
      var s := if a < i then a else a + 1;
      assert x in es[s].pages;
      assert p in es[i].pages;
    }
    forall x | x in PageSet(es) - {p} ensures x in PageSet(es') {
      var a :| 0 <= a < |es| && x in es[a].pages;
      assert x in es'[if a < i then a else a - 1].pages;
    }
  }

  /** Replacing entry `i`'s tabs by `rest`, some of its tabs without duplicates, keeps the invariant. */
  lemma ShrinkKeepsWellFormed(es: seq<Entry>, i: nat, rest: seq<PageId>, entryCap: nat, tabCap: nat, nb: nat, np: nat)
    requires WellFormed(es, entryCap, tabCap, nb, np)
    requires i < |es| && rest != [] && |rest| < |es[i].pages| && NoDup(rest)
    requires forall x :: x in rest ==> x in es[i].pages
    ensures WellFormed(es[i := Entry(es[i].browser, rest)], entryCap, tabCap, nb, np)
  {
    var es' := es[i := Entry(es[i].browser, rest)];
    forall a | 0 <= a < |es'|
      ensures 1 <= |es'[a].pages| <= tabCap && NoDup(es'[a].pages) && es'[a].browser < nb
      ensures forall x :: x in es'[a].pages ==> x < np
    {
      if a != i {
        assert es'[a] == es[a];
      }
    }
    forall a, b, x | 0 <= a < |es'| && 0 <= b < |es'| && a != b && x in es'[a].pages
      ensures x !in es'[b].pages
    {
      assert x in es[a].pages;
      if b != i {
        assert es'[b] == es[b];
      }
    }
    forall a, b | 0 <= a < |es'| && 0 <= b < |es'| && es'[a].browser == es'[b].browser
      ensures a == b
    {
      assert es'[a].browser == es[a].browser && es'[b].browser == es[b].browser;
    }
  }

  /** Closing tab `p` of entry `i`, which keeps other tabs, keeps the invariant and removes exactly `p`. */
  lemma ShrinkEntryKeepsWellFormed(es: seq<Entry>, i: nat, rest: seq<PageId>, p: PageId, entryCap: nat, tabCap: nat, nb: nat, np: nat)
    requires WellFormed(es, entryCap, tabCap, nb, np)
    requires i < |es| && p in es[i].pages && rest != [] && |rest| < |es[i].pages| && NoDup(rest)
    requires forall x :: x in rest <==> x in es[i].pages && x != p
    ensures WellFormed(es[i := Entry(es[i].browser, rest)], entryCap, tabCap, nb, np)
    ensures PageSet(es[i := Entry(es[i].browser, rest)]) == PageSet(es) - {p}
  {
    ShrinkKeepsWellFormed(es, i, rest, entryCap, tabCap, nb, np);
    var es' := es[i := Entry(es[i].browser, rest)];
    forall x | x in PageSet(es') ensures x in PageSet(es) - {p} {
      var a :| 0 <= a < |es'| && x in es'[a].pages;
      assert x in es[a].pages;
      if a != i {
        assert es'[a] == es[a];
        assert p in es[i].pages;
      }
    }
    forall x | x in PageSet(es) - {p} ensures x in PageSet(es') {
      var a :| 0 <= a < |es| && x in es[a].pages;
      assert x in es'[a].pages;
    }
  }

  /** Closing tab `p` of its owner `i` keeps the invariant and removes exactly `p` from the open tabs. */
  lemma ReleaseKeepsWellFormed(es: seq<Entry>, i: nat, p: PageId, entryCap: nat, tabCap: nat, nb: nat, np: nat)
    requires WellFormed(es, entryCap, tabCap, nb, np)
    requires i < |es| && p in es[i].pages
    ensures WellFormed(AfterRelease(es, i, p), entryCap, tabCap, nb, np)
    ensures PageSet(AfterRelease(es, i, p)) == PageSet(es) - {p}
  {
    var rest := RemoveFirst(es[i].pages, p);
    RemovePage(es[i].pages, p);
    if rest == [] {
      DropEntryKeepsWellFormed(es, i, p, entryCap, tabCap, nb, np);
    } else {
      ShrinkEntryKeepsWellFormed(es, i, rest, p, entryCap, tabCap, nb, np);
    }
  }

  class ChromiumPool {
    const maxBrowsers: int
    const maxTabsPerBrowser: int
    /** The `(browser, pages)` list. */
    var browsers: seq<Entry>
    /** Whether `self.playwright` is set. */
    var started: bool
    /** Counters the fresh browser and tab identifiers are drawn from. */
    var nextBrowser: nat
    var nextPage: nat

    /** Most entries the pool can reach: a non-positive `max_browsers` admits none. */
    function EntryCap(): nat
    {
      if maxBrowsers < 0 then 0 else maxBrowsers
    }

    /** Most tabs a browser can reach: a new browser always gets one tab, even when `max_tabs_per_browser` is not positive. */
    function TabCap(): nat
    {
      if maxTabsPerBrowser < 1 then 1 else maxTabsPerBrowser
    }

    ghost predicate Valid()
      reads this
    {
      WellFormed(browsers, EntryCap(), TabCap(), nextBrowser, nextPage)
    }

    /** `acquire` would hand out a tab: some browser has a free slot, or a browser can be launched. */
    predicate Admits()
      reads this
    {
      FirstWithRoom(browsers, maxTabsPerBrowser).Some? || (|browsers| < maxBrowsers && started)
    }

    /** What `acquire` raises when it does not admit. */
    function RefusalReason(): AcquireError
      reads this
    {
      if |browsers| < maxBrowsers then NotStarted else AllBusy
    }

    constructor (maxBrowsers: int, maxTabsPerBrowser: int)
      ensures Valid()
      ensures this.maxBrowsers == maxBrowsers && this.maxTabsPerBrowser == maxTabsPerBrowser
      ensures browsers == [] && !started
    {
      this.maxBrowsers := maxBrowsers;
      this.maxTabsPerBrowser := maxTabsPerBrowser;
      browsers := [];
      started := false;
      nextBrowser, nextPage := 0, 0;
    }

    /** `ChromiumPool()`: the default caps of four browsers with eight tabs each. */
    constructor Default()
      ensures Valid()
      ensures maxBrowsers == 4 && maxTabsPerBrowser == 8
      ensures browsers == [] && !started
    {
      maxBrowsers, maxTabsPerBrowser := 4, 8;
      browsers := [];
      started := false;
      nextBrowser, nextPage := 0, 0;
    }

    /** `start`: set up Playwright once. */
    method Start()
      requires Valid()
      modifies this
      ensures Valid() && started
      ensures browsers == old(browsers) && nextBrowser == old(nextBrowser) && nextPage == old(nextPage)
    {
      if !started {
        started := true;
      }
    }

    /**
     * `acquire`: a new tab in the first browser (in list order) with a free
     * slot; failing that a new browser with one tab, while there are fewer
     * than `max_browsers`; otherwise a refusal that leaves the pool as it was.
     */
    method Acquire() returns (r: Acquisition)
      requires Valid()
      modifies this
      ensures Valid()
      ensures started == old(started)
      ensures r.Acquired? <==> old(Admits())
      ensures var first := FirstWithRoom(old(browsers), maxTabsPerBrowser);
        first.Some? ==>
          && r == Acquired(old(browsers)[first.value].browser, old(nextPage))
          && browsers == WithPage(old(browsers), first.value, old(nextPage))
          && nextPage == old(nextPage) + 1 && nextBrowser == old(nextBrowser)
      ensures var first := FirstWithRoom(old(browsers), maxTabsPerBrowser);
        first.None? && |old(browsers)| < maxBrowsers && old(started) ==>
          && r == Acquired(old(nextBrowser), old(nextPage))
          && browsers == old(browsers) + [Entry(old(nextBrowser), [old(nextPage)])]
          && nextPage == old(nextPage) + 1 && nextBrowser == old(nextBrowser) + 1
      ensures !old(Admits()) ==>
          && r == Refused(old(RefusalReason()))
          && browsers == old(browsers) && nextPage == old(nextPage) && nextBrowser == old(nextBrowser)
      ensures r.Acquired? ==> browsers == AfterAcquire(old(browsers), maxTabsPerBrowser, old(nextBrowser), old(nextPage))
      ensures r.Acquired? ==> r.page !in PageSet(old(browsers)) && PageSet(browsers) == PageSet(old(browsers)) + {r.page}
    {
      var i := 0;
      while i < |browsers|
        invariant 0 <= i <= |browsers|
        invariant forall j :: 0 <= j < i ==> |browsers[j].pages| >= maxTabsPerBrowser
      {
        if |browsers[i].pages| < maxTabsPerBrowser {
          var first := FirstWithRoom(browsers, maxTabsPerBrowser);
          assert first == Some(i);
          AddPageKeepsWellFormed(browsers, i, EntryCap(), TabCap(), nextBrowser, nextPage);
          var page := nextPage;
          browsers := WithPage(browsers, i, page);
          nextPage := nextPage + 1;
          return Acquired(browsers[i].browser, page);
        }
        i := i + 1;
      }
      if |browsers| < maxBrowsers {
        if !started {
          return Refused(NotStarted);
        }
        AddEntryKeepsWellFormed(browsers, EntryCap(), TabCap(), nextBrowser, nextPage);
        var browser, page := nextBrowser, nextPage;
        browsers := browsers + [Entry(browser, [page])];
        nextBrowser, nextPage := nextBrowser + 1, nextPage + 1;
        return Acquired(browser, page);
      }
      return Refused(AllBusy);
    }

    /**
     * `release(page)`: close the tab in the first browser that lists it and
     * drop that browser once it has no tab left; an unknown tab changes
     * nothing.
     */
    method Release(page: PageId)
      requires Valid()
      modifies this
      ensures Valid()
      ensures started == old(started) && nextBrowser == old(nextBrowser) && nextPage == old(nextPage)
      ensures var owner := FindOwner(old(browsers), page);
        owner.None? ==> browsers == old(browsers)
      ensures var owner := FindOwner(old(browsers), page);
        owner.Some? ==> browsers == AfterRelease(old(browsers), owner.value, page)
      ensures PageSet(browsers) == PageSet(old(browsers)) - {page}
    {
      var i := 0;
      while i < |browsers|
        invariant 0 <= i <= |browsers|
        invariant forall j :: 0 <= j < i ==> page !in browsers[j].pages
      {
        var entry := browsers[i];
        if page in entry.pages {
          var owner := FindOwner(browsers, page);
          assert owner == Some(i);
          ReleaseKeepsWellFormed(browsers, i, page, EntryCap(), TabCap(), nextBrowser, nextPage);
          ghost var before := browsers;
          var rest := RemoveFirst(entry.pages, page);
          browsers := browsers[i := Entry(entry.browser, rest)];
          if rest == [] {
            DropEmptied(before, i, entry.browser);
            browsers := RemoveFirst(browsers, Entry(entry.browser, []));
          }
          return;
        }
        i := i + 1;
      }
      assert FindOwner(browsers, page).None?;
      forall x | x in PageSet(browsers) ensures x != page {
        var a, k :| 0 <= a < |browsers| && 0 <= k < |browsers[a].pages| && browsers[a].pages[k] == x;
      }
    }

    /** `close`: every tab and browser is closed and Playwright is stopped. */
    method Close()
      requires Valid()
      modifies this
      ensures Valid()
      ensures browsers == [] && !started
      ensures nextBrowser == old(nextBrowser) && nextPage == old(nextPage)
    {
      browsers := [];
      started := false;
    }
  }

  /**
   * `self.browsers.remove((browser, pages))` once entry `i`'s tab list is
   * empty removes entry `i` itself: every earlier entry still has a tab, so
   * none of them compares equal.
   */
  lemma DropEmptied(es: seq<Entry>, i: nat, b: BrowserId)
    requires i < |es|
    requires forall j :: 0 <= j < |es| ==> es[j].pages != []
    ensures RemoveFirst(es[i := Entry(b, [])], Entry(b, [])) == es[..i] + es[i + 1..]
  {
    var es' := es[i := Entry(b, [])];
    assert es'[i] == Entry(b, []);
    var at := IndexOf(es', Entry(b, []));
    assert at == i;
    assert es'[..i] == es[..i];
    assert es'[i + 1..] == es[i + 1..];
  }

  /** Releasing the tab just opened in entry `i` gives back the list `acquire` started from. */
  lemma ReleaseUndoesWithPage(es: seq<Entry>, i: nat, np: PageId)
    requires i < |es|
    requires forall a, x :: 0 <= a < |es| && x in es[a].pages ==> x < np
    requires es[i].pages != []
    ensures FindOwner(WithPage(es, i, np), np) == Some(i)
    ensures AfterRelease(WithPage(es, i, np), i, np) == es
  {
    var es' := WithPage(es, i, np);
    var ps := es[i].pages;
    assert np in es'[i].pages;
    assert IndexOf(ps + [np], np) == |ps| by {
      assert (ps + [np])[|ps|] == np;
      assert np !in ps;
    }
    assert RemoveFirst(ps + [np], np) == ps by {
      assert (ps + [np])[..|ps|] == ps;
    }
    assert es'[i := Entry(es[i].browser, ps)] == es;
  }

  /** Releasing the only tab of the browser just launched gives back the list `acquire` started from. */
  lemma ReleaseUndoesNewEntry(es: seq<Entry>, nb: BrowserId, np: PageId)
    requires forall a, x :: 0 <= a < |es| && x in es[a].pages ==> x < np
    ensures FindOwner(es + [Entry(nb, [np])], np) == Some(|es|)
    ensures AfterRelease(es + [Entry(nb, [np])], |es|, np) == es
  {
    var es' := es + [Entry(nb, [np])];
    assert np in es'[|es|].pages;
    assert forall a :: 0 <= a < |es| ==> es'[a] == es[a];
    assert RemoveFirst([np], np) == [];
    assert es'[..|es|] + es'[|es| + 1..] == es;
  }

  /** The entry list after `acquire` hands out fresh tab `np`, in the first browser with room or in fresh browser `nb`. */
  function AfterAcquire(es: seq<Entry>, maxTabs: int, nb: BrowserId, np: PageId): seq<Entry>
  {
    var first := FirstWithRoom(es, maxTabs);
    if first.Some? then WithPage(es, first.value, np) else es + [Entry(nb, [np])]
  }

  /** Releasing the tab `acquire` just handed out gives back the list it started from. */
  lemma ReleaseUndoesAcquire(es: seq<Entry>, maxTabs: int, nb: BrowserId, np: PageId)
    requires forall a :: 0 <= a < |es| ==> es[a].pages != []
    requires forall a, x :: 0 <= a < |es| && x in es[a].pages ==> x < np
    ensures FindOwner(AfterAcquire(es, maxTabs, nb, np), np).Some?
    ensures AfterRelease(AfterAcquire(es, maxTabs, nb, np), FindOwner(AfterAcquire(es, maxTabs, nb, np), np).value, np) == es
  {
    var first := FirstWithRoom(es, maxTabs);
    if first.Some? {
      ReleaseUndoesWithPage(es, first.value, np);
    } else {
      ReleaseUndoesNewEntry(es, nb, np);
    }
  }

  /**
   * A tab taken with `acquire` and handed back with `release` once the work
   * on it is done: the pool's list is as before, and only the tab counter
   * has moved, when a tab was handed out.
   */
  method AcquireAndRelease(pool: ChromiumPool) returns (r: Acquisition)
    requires pool.Valid()
    modifies pool
    ensures pool.Valid()
    ensures pool.browsers == old(pool.browsers) && pool.started == old(pool.started)
    ensures r.Acquired? <==> old(pool.Admits())
    ensures r.Refused? ==> r.reason == old(pool.RefusalReason())
    ensures pool.nextPage == old(pool.nextPage) + (if old(pool.Admits()) then 1 else 0)
  {
    ghost var before, nb, np := pool.browsers, pool.nextBrowser, pool.nextPage;
    r := pool.Acquire();
    if r.Acquired? {
      ReleaseUndoesAcquire(before, pool.maxTabsPerBrowser, nb, np);
      pool.Release(r.page);
    }
  }

  /** However the pool was used, it never holds more than `max_browsers * max_tabs_per_browser` tabs (taking at least one tab per browser). */
  lemma PoolCapacity(pool: ChromiumPool)
    requires pool.Valid()
    ensures TotalPages(pool.browsers) <= pool.EntryCap() * pool.TabCap()
  {
    TotalPagesBound(pool.browsers, pool.TabCap());
  }
}
