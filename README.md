# ui-analyser core, modelled in Dafny

This project models the sequential logic of the ui-analyser Python services. It covers the agent (the service analyzer package, the stand-alone agent script, the structured-error HTTP service and the older HTTP server) and the backend (the command-line analyzer, the AI analyzer and the configuration record). The logic modelled is:

- the Chromium pool's tab bookkeeping: first-fit reuse of a browser with a free tab slot, launching a new browser below the cap, refusal, release and close;
- how the screenshot capture and the agent script take tabs from the pool and always give them back;
- the classification of page failures as timeouts, and the 100-character cut of the quoted error;
- the request checks of the HTTP service, its error classes with their codes and statuses, and the structured error body;
- the configuration defaults, `__post_init__` and `validate`;
- the text helpers every entry point repeats: scheme normalisation, the screenshot file-name stem, and extracting issue lines from the analysis text;
- the AI analyzer's response templates, the example listing of its prompt, the load time the prompt quotes, and both rule-based fallbacks;
- the response body with its Lighthouse block, `verify_api_key`, and the 503 answers when no pool exists.

Browsers and tabs are opaque identifiers drawn from counters. What Playwright, Lighthouse, the language model or the clock produce is an input to the operation that uses it.

The files, one module each:

- `outcomes.dfy` holds Option and Result.
- `text.dfy` holds Python's `strip`, `split`, `join`, `lower`, `replace`, slicing and `list.remove` on sequences.
- `urls.dfy`, `issues.dfy` and `access.dfy` hold the repeated helpers.
- `pool.dfy` holds the `ChromiumPool` class, whose `browsers` list the methods reassign.
- `capture.dfy` and `agent_analyzer.dfy` hold the two analyzers that use the pool.
- `responses.dfy` holds the success body.
- `api.dfy` holds the structured-error service, and `server.dfy` the older server.
- `settings.dfy` holds the `Config` class.
- `ai_analyzer.dfy` holds the backend's AI analyzer, and `backend_analyzer.dfy` its command-line analyzer.

The pool invariant (`Pool.WellFormed`) states five things:

- there are at most `max_browsers` entries;
- every entry has between 1 and `max_tabs_per_browser` tabs;
- no tab is listed twice;
- no browser is listed twice;
- every identifier was drawn from its counter.

Every pool method keeps the invariant. Two points where the code's own rules differ from the intended caps:

- A new browser always gets one tab, so the tab cap used in the invariant is `max(1, max_tabs_per_browser)`.
- When every browser is full and below the cap, `acquire` on a pool that was never started fails with Python's `AttributeError` rather than `RuntimeError`. The model keeps these as two distinct refusals.

## Model

| member | source | states |
|---|---|---|
| Pool.FirstWithRoom | apps/agent/src/analyzer/analyzer.py:31-32 | the index found has a free slot and every earlier entry is full; none is found exactly when all entries are full |
| Pool.FindOwner | apps/agent/src/analyzer/analyzer.py:59-60 | the index found lists the tab and no earlier entry does; none is found exactly when no entry lists it |
| Pool.WithPage | apps/agent/src/analyzer/analyzer.py:33-34 | the new tab is appended to entry `i`'s tab list and every other entry is untouched |
| Pool.TotalPagesBound | apps/agent/src/analyzer/analyzer.py:28-73 | with at most `cap` tabs per browser the pool holds at most `entries * cap` tabs |
| Pool.WithPageDistinct | apps/agent/src/analyzer/analyzer.py:33-34 | opening a fresh tab in a browser keeps all tabs pairwise distinct |
| Pool.WithPageSet | apps/agent/src/analyzer/analyzer.py:33-34 | opening a tab adds exactly that tab to the set of open tabs |
| Pool.AddPageKeepsWellFormed | apps/agent/src/analyzer/analyzer.py:31-35 | reusing a browser with room keeps the pool invariant and adds exactly the fresh tab |
| Pool.AddEntryDistinct | apps/agent/src/analyzer/analyzer.py:48-49 | appending a fresh browser with one fresh tab keeps tabs and browsers distinct |
| Pool.AddEntryKeepsWellFormed | apps/agent/src/analyzer/analyzer.py:37-50 | launching a browser below the cap keeps the invariant and adds exactly the fresh tab |
| Pool.RemovePage | apps/agent/src/analyzer/analyzer.py:65 | `pages.remove(page)` on a list without duplicates removes that tab and nothing else |
| Pool.AfterRelease | apps/agent/src/analyzer/analyzer.py:57-73 | no contract of its own: the list after `release` closes a tab of entry `i`, dropping the entry when no tab is left; `Pool.ChromiumPool.Release` ensures its new list equals it, and `Pool.ReleaseKeepsWellFormed` states that it keeps the invariant and removes exactly that tab |
| Pool.DropKeepsWellFormed | apps/agent/src/analyzer/analyzer.py:72 | removing one entry keeps the invariant of the remaining entries |
| Pool.DropEntryKeepsWellFormed | apps/agent/src/analyzer/analyzer.py:65-72 | dropping a browser whose only tab is `p` keeps the invariant and removes exactly `p` |
| Pool.ShrinkKeepsWellFormed | apps/agent/src/analyzer/analyzer.py:65 | narrowing an entry's tabs to a smaller non-empty subset keeps the invariant |
| Pool.ShrinkEntryKeepsWellFormed | apps/agent/src/analyzer/analyzer.py:65-67 | closing one of several tabs of a browser keeps the invariant and removes exactly that tab |
| Pool.ReleaseKeepsWellFormed | apps/agent/src/analyzer/analyzer.py:57-73 | closing a tab of its owner, dropping the owner when left empty, keeps the invariant and removes exactly that tab |
| Pool.ChromiumPool.constructor | apps/agent/src/analyzer/analyzer.py:17-22 | a new pool has the given caps, no browsers, is not started and satisfies the invariant |
| Pool.ChromiumPool.Default | apps/agent/src/analyzer/analyzer.py:17-22 | the default arguments give caps of 4 browsers and 8 tabs, with no browsers, not started and satisfying the invariant |
| Pool.ChromiumPool.Start | apps/agent/src/analyzer/analyzer.py:24-26 | after `start` the pool is started and its browser list is unchanged |
| Pool.ChromiumPool.Acquire | apps/agent/src/analyzer/analyzer.py:28-55 | a tab is handed out exactly when some browser has room or one may still be launched. The tab goes to the first browser with room, appended to its list, else to a new browser with exactly that one tab. A refusal leaves the pool unchanged and says whether the pool was busy or never started. The invariant is kept, and the open tabs grow by exactly the fresh tab (the copy at apps/agent/analyzer.py lines 27-43 follows the same rule) |
| Pool.ChromiumPool.Release | apps/agent/src/analyzer/analyzer.py:57-73 | the tab leaves its first owner, which is dropped once it has no tab left; an unknown tab changes nothing; the invariant is kept and exactly that tab is closed (so does the copy at apps/agent/analyzer.py lines 45-61) |
| Pool.ChromiumPool.Close | apps/agent/src/analyzer/analyzer.py:75-90 | after `close` the browser list is empty and Playwright is unset (so does the copy at apps/agent/analyzer.py lines 63-78) |
| Pool.DropEmptied | apps/agent/src/analyzer/analyzer.py:72 | removing the emptied `(browser, pages)` pair by value removes that entry itself, because every earlier entry still has a tab |
| Pool.ReleaseUndoesWithPage | apps/agent/src/analyzer/analyzer.py:31-35 | releasing the tab just opened in an existing browser restores the list |
| Pool.ReleaseUndoesNewEntry | apps/agent/src/analyzer/analyzer.py:37-50 | releasing the only tab of the browser just launched removes that browser again |
| Pool.AfterAcquire | apps/agent/src/analyzer/analyzer.py:31-50 | no contract of its own: the list after `acquire` hands out a fresh tab, in the first browser with room or else in a new browser with that one tab; `Pool.ChromiumPool.Acquire` ensures its new list equals it, and `Pool.ReleaseUndoesAcquire` states that `release` undoes it |
| Pool.ReleaseUndoesAcquire | apps/agent/src/analyzer/analyzer.py:28-73 | `release` of the tab `acquire` just handed out finds its owner and restores the list `acquire` started from |
| Pool.AcquireAndRelease | apps/agent/src/analyzer/analyzer.py:375-427 | a tab taken and then given back in the `finally` leaves the browser list as it was, and it is taken exactly when the pool admits one |
| Pool.PoolCapacity | apps/agent/src/analyzer/analyzer.py:28-73 | a pool keeping its invariant never holds more than `max_browsers * max_tabs_per_browser` tabs |
| Capture.RefusalMessage | apps/agent/src/analyzer/analyzer.py:37-55 | no contract of its own: the text of what a refused `acquire` raises, the `RuntimeError` message for a busy pool or the `AttributeError` text for a pool never started; `Capture.ShotOf` states that a refused capture carries its notice |
| Capture.ShotOf | apps/agent/src/analyzer/analyzer.py:369-419 | a shot succeeds exactly when a tab was handed out and the page loaded and was photographed. A failure carries the notice for its message and the load time measured up to the failure |
| Capture.OutcomeOf | apps/agent/src/analyzer/analyzer.py:319-349 | the capture succeeds exactly when the desktop shot does, and reports the desktop load time and error |
| Capture.CaptureFollowsDesktop | apps/agent/src/analyzer/analyzer.py:319-349 | the capture succeeds exactly when a tab is free and the desktop page loads, whatever the mobile run does |
| Capture.CaptureSingle | apps/agent/src/analyzer/analyzer.py:351-427 | the acquired tab is always released, so the browser list ends as it began, and the shot is `ShotOf` the run |
| Capture.CaptureScreenshots | apps/agent/src/analyzer/analyzer.py:298-349 | the pool is started and its browser list ends as it began. The outcome follows the desktop shot alone, and a second tab is taken only after a desktop success |
| AccessErrors.IsTimeout | apps/agent/src/analyzer/analyzer.py:408 | no contract of its own: the two-part timeout test as written; `AccessErrors.TimeoutIffLowered` states that it holds exactly when the lower-cased text holds `timeout` |
| AccessErrors.TimeoutIffLowered | apps/agent/src/analyzer/analyzer.py:408 | the case-sensitive `"Timeout"` test is subsumed: a failure is a timeout exactly when its lower-cased text holds `timeout` |
| AccessErrors.NoticeFor | apps/agent/src/analyzer/analyzer.py:408-419 | a timeout gives the timeout notice; any other failure quotes the message's prefix of at most 100 characters, all of it when it is short enough (apps/agent/analyzer.py classifies and cuts the same way, lines 252-255 and 326) |
| AgentAnalyzer.AnalysisOf | apps/agent/analyzer.py:239-298 | a busy pool propagates the refusal. A failed desktop run returns its notice and load time, and otherwise the AI report is returned with the desktop load time |
| AgentAnalyzer.AgreesWithService | apps/agent/analyzer.py:239-257 | when a tab is free, the script and the service's capture report the same notice, load time and success |
| AgentAnalyzer.AnalyzeWebsite | apps/agent/analyzer.py:235-277 | every tab acquired is released on both paths, so the browser list ends as it began. The mobile tab is taken only after the desktop page loaded, and the result is `AnalysisOf` |
| Urls.NormalizeUrl | apps/agent/analyzer.py:541-543 | the result always carries a scheme, a URL with one is unchanged, and `https://` is prepended otherwise (the same normalisation appears in apps/agent/src/analyzer/analyzer.py lines 709-711 and apps/backend/analyzer.py lines 222-224) |
| Urls.NormalizeIdempotent | apps/agent/analyzer.py:541-543 | normalising twice equals normalising once |
| Urls.SafeUrl | apps/agent/analyzer.py:345-350 | no contract of its own: the replace chain and the cut to 50 characters; `Urls.SafeUrlIsSafe` and `Urls.SafeUrlKeepsPlainNames` state what the stem is |
| Urls.SafeUrlIsSafe | apps/agent/analyzer.py:345-350 | the file-name stem holds no `/` and no `?` and has at most 50 characters (the same stem is built in apps/agent/src/analyzer/analyzer.py lines 487-492 and apps/backend/analyzer.py line 185) |
| Urls.SafeUrlKeepsPlainNames | apps/agent/analyzer.py:345-350 | a URL of at most 50 characters without either scheme text, `/` or `?` is its own stem |
| Issues.StrippedNonBlank | apps/agent/analyzer.py:567-569 | the issues are no more than the lines |
| Issues.IssueLines | apps/agent/analyzer.py:566-569 | no contract of its own: the stripped non-blank lines of the text split on newlines; `Issues.NoIssuesIffBlank` and `Issues.StrippedEmptyNoIssues` state when it is empty, and `Issues.ExtractIssues` ensures the loop computes it |
| Issues.IssuesAreStripped | apps/agent/analyzer.py:567-569 | every issue is non-empty and already stripped |
| Issues.StrippedNonBlankMembers | apps/agent/analyzer.py:565-569 | a text is an issue exactly when it is the non-empty stripped form of some line |
| Issues.StrippedNonBlankSnoc | apps/agent/analyzer.py:567-569 | one more line adds its stripped form at the end when it is not blank, and nothing otherwise, so the order of the lines is kept |
| Issues.StrippedNonBlankStep | apps/agent/analyzer.py:567-569 | the issues of the first `i+1` lines extend those of the first `i` by line `i`'s stripped form when it is not blank |
| Issues.NoIssuesIffBlank | apps/agent/analyzer.py:565-569 | a text yields no issues exactly when it is blank |
| Issues.StrippedEmptyNoIssues | apps/agent/analyzer.py:566 | a text whose stripped form is empty yields no issues, and only such a text does |
| Issues.NoIssuesCons | apps/agent/analyzer.py:567-569 | lines yield no issues exactly when the first is blank and the rest yield none |
| Issues.BlankCons | apps/agent/analyzer.py:566 | a text is blank exactly when its first character is whitespace and the rest is blank |
| Issues.ExtractIssues | apps/agent/analyzer.py:565-569 | the loop collects exactly the stripped non-blank lines, in order (the same loop appears in apps/agent/src/analyzer/analyzer.py lines 731-735 and apps/agent/server.py lines 116-120) |
| Text.Lower | apps/agent/src/main.py:90 | lower-casing keeps the length and maps every character |
| Text.LeadingSpacesRun | apps/agent/analyzer.py:568 | the leading run `strip` removes is whitespace, and the next character is not |
| Text.TrailingSpacesRun | apps/agent/analyzer.py:568 | the trailing run `strip` removes is whitespace, and the character before it is not |
| Text.Strip | apps/agent/analyzer.py:568 | its own contract only bounds the length (see "## Left out"); `Text.StripEnds`, `Text.StripIsInfix` and `Text.StripIdempotent` state what `str.strip` gives |
| Text.StripEnds | apps/agent/analyzer.py:566 | `strip` gives the empty string exactly on blank text, and otherwise neither end of the result is whitespace |
| Text.StripIsInfix | apps/agent/analyzer.py:568 | the stripped text sits in the original between a whitespace prefix and a whitespace suffix |
| Text.AllTrailingIsBlank | apps/agent/analyzer.py:566 | text that is whitespace all the way through is blank |
| Text.StripEmpty | apps/agent/analyzer.py:566 | the stripped slice is empty exactly when the text is blank |
| Text.StripIdempotent | apps/agent/analyzer.py:568 | stripping twice equals stripping once |
| Text.Split | apps/agent/analyzer.py:567 | splitting on newlines always yields at least one piece |
| Text.SplitPiecesHaveNoNewline | apps/agent/analyzer.py:567 | no piece of the split holds a newline |
| Text.JoinSplit | apps/backend/ai_analyzer.py:122 | joining the pieces with newlines gives back the text |
| Text.SplitAfterPlainPrefix | apps/agent/analyzer.py:567 | a prefix without a newline stays in the first piece |
| Text.SplitJoin | apps/backend/ai_analyzer.py:122 | splitting newline-joined lines without newlines gives back the lines |
| Text.Take | apps/agent/analyzer.py:326 | slicing to `n` gives the prefix of length `min(n, len)` |
| Text.ReplaceAll | apps/agent/analyzer.py:345-350 | no contract of its own: `str.replace`, every non-overlapping occurrence from the left; `Text.ReplaceAbsent`, `Text.ReplaceKeepsAlphabet` and `Text.ReplaceCharRemovesIt` state what it gives |
| Text.ReplaceAbsent | apps/agent/analyzer.py:345-350 | replacing a pattern that does not occur changes nothing |
| Text.ReplaceKeepsAlphabet | apps/agent/analyzer.py:345-350 | replacing introduces no character beyond those of the text and the replacement |
| Text.ReplaceCharRemovesIt | apps/agent/analyzer.py:348-349 | replacing a character by text without it removes every occurrence |
| Text.IndexOf | apps/backend/analyzer.py:211 | the index found holds the element and is its first occurrence |
| Text.RemoveFirst | apps/backend/analyzer.py:211 | `list.remove` drops the first occurrence and keeps the rest in order. Where Python raises `ValueError` for a missing element, the model returns the list unchanged; every call site checks membership first (line 209, and the pool removes only what it has just found) |
| Text.RemoveFirstStep | apps/backend/analyzer.py:211 | removing from a list whose head differs keeps the head and removes from the tail |
| Text.ContainsInfix | apps/agent/src/main.py:89-93 | text placed between two others is found in the concatenation |
| Text.LowerDrop | apps/agent/src/main.py:90 | lower-casing commutes with dropping a prefix |
| Text.LowerConcat | apps/agent/src/main.py:90 | lower-casing commutes with concatenation |
| Text.ContainsLower | apps/agent/src/analyzer/analyzer.py:408 | text found in a string is found, lower-cased, in the lower-cased string |
| Api.NewAnalysisError | apps/agent/src/main.py:39-48 | the base error keeps its message and defaults to `ANALYSIS_ERROR`, 500 |
| Api.NewWebsiteAccessError | apps/agent/src/main.py:51-56 | the website access error is `WEBSITE_ACCESS_ERROR`, 400, and records the URL |
| Api.NewResourceUnavailableError | apps/agent/src/main.py:59-63 | the resource error is `RESOURCE_UNAVAILABLE`, 503 |
| Api.NewValidationError | apps/agent/src/main.py:66-70 | the validation error is `VALIDATION_ERROR`, 400 |
| Api.ErrorClassesDistinct | apps/agent/src/main.py:39-70 | the four classes have pairwise different codes; only the access and validation errors are 400s |
| Api.CreateErrorResponse | apps/agent/src/main.py:150-157 | the body copies the code and message, carries the status in its details, and is stamped with the given time |
| Api.NamesBlockedHost | apps/agent/src/main.py:89-93 | no contract of its own: some blocked host occurs in the lower-cased URL; `Api.BlockedHostRejectedAnywhere` states that a blocked host in any case anywhere is caught |
| Api.ValidateUrl | apps/agent/src/main.py:80-97 | a URL passes exactly when it has a scheme, names no blocked host in any case, and has at most 2048 characters. The first failing check, in that order, decides the message, and every failure is a `VALIDATION_ERROR` 400 |
| Api.BlockedHostRejectedAnywhere | apps/agent/src/main.py:89-93 | a blocked host in any mix of cases, anywhere in a URL with a scheme, is refused with the blocked-host message |
| Api.LengthLimitIsInclusive | apps/agent/src/main.py:96-97 | a URL of exactly 2048 characters passes, and one more character is refused as too long |
| Api.IssuesOf | apps/agent/src/main.py:248-250 | the issues are the stripped non-blank lines when the results are text, and empty when they are not |
| Api.AnalyzeWebsite | apps/agent/src/main.py:199-351 | each failure maps to its structured body: validation 400, missing pool 503, timeout 408, Lighthouse error 422, anything else 500. Success happens exactly when every check passes, and its body carries the URL, load time, issues and Lighthouse block |
| Responses.Get | apps/agent/src/main.py:301-305 | `get` gives a number exactly when the key holds one; an absent key and `None` both read as `null` |
| Responses.BlockOf | apps/agent/src/main.py:294-306 | the block is `{available: False}` unless the data is present and available; otherwise it carries the five metrics by `get` |
| Responses.BlockCarriesMetrics | apps/agent/src/main.py:298-306 | a metric the available data reports reaches the response unchanged, and a missing one becomes `null` |
| Responses.BuildResponse | apps/agent/src/main.py:273-306 | the body keeps the URL, load time and issues, and its block, first set to unavailable and then overwritten, ends as `BlockOf` the data (apps/agent/server.py lines 147-175 and both command lines build the same body) |
| Server.VerifyApiKey | apps/agent/server.py:29-30 | every request is accepted |
| Server.UnreachableKeyCheck | apps/agent/server.py:32-54 | with no key configured everything passes; otherwise a missing key is 401, a wrong one 403, and only the right one passes |
| Server.WrongKeyIsAccepted | apps/agent/server.py:29-54 | a wrong key is let through although the check after the early return would answer 403 |
| Server.Analyze | apps/agent/server.py:93-183 | without a pool the answer is 503, and a raising analysis is 500 with its text. Otherwise the body carries the extracted issues and the Lighthouse block |
| Server.Health | apps/agent/server.py:185-196 | `/health` answers 503 exactly when the pool is missing, and 200 otherwise |
| Settings.Config.constructor | apps/backend/config.py:13-43 | every field is as given, and a missing viewport gets its default |
| Settings.Config.Default | apps/backend/config.py:13-21 | `Config()` has the defaults 4, 8, 30000, 300, 3.0, 70 and 2.5, with the default viewports |
| Settings.Config.PostInit | apps/backend/config.py:37-43 | a missing viewport becomes 1920x1080 or 375x667, a given one is kept, and nothing else changes |
| Settings.Config.Validate | apps/backend/config.py:45-60 | it passes exactly when all four numeric settings are positive and the key is set. Otherwise the error names the first non-positive setting in check order, or the key when all four pass. Being a function, it changes no field |
| Settings.DefaultsPass | apps/backend/config.py:13-16 | the default settings pass every numeric check, so only the key decides |
| Settings.ValidatedPoolCaps | apps/backend/config.py:47-51 | a pool built from a validated configuration has exactly the configured caps |
| AiAnalyzer.TemplatesShape | apps/backend/ai_analyzer.py:18-32 | there are exactly the 13 templates R1 to R13, in order, and only R2 mentions the load time |
| AiAnalyzer.Format | apps/backend/ai_analyzer.py:127 | formatting replaces each load-time field by the number and keeps every other piece |
| AiAnalyzer.ExampleLines | apps/backend/ai_analyzer.py:126-129 | there is one line per template, in order, each starting with `"<key>. "`; untouched templates appear verbatim and no field is left unfilled |
| AiAnalyzer.ExampleListing | apps/backend/ai_analyzer.py:126-129 | the listing names R1 to R13 in order, and its R2 line quotes the given load time |
| AiAnalyzer.PromptLoadTimeAsWritten | apps/backend/ai_analyzer.py:62-67 | as written, available data quotes the FCP and raises when it is missing or `None`; otherwise the measured time is quoted |
| AiAnalyzer.MissingFcpDefaultIsDead | apps/backend/ai_analyzer.py:63-64 | with available data and no FCP the call raises, so the measured-time default is never used |
| AiAnalyzer.EffectiveLoadTime | apps/backend/ai_analyzer.py:62-67 | the quoted time is the reported FCP when the data is available and has one, else the measured time |
| AiAnalyzer.EffectiveLoadTimeExtendsAsWritten | apps/backend/ai_analyzer.py:62-67 | wherever the code as written quotes a time, the intended choice quotes the same one |
| AiAnalyzer.FcpLines | apps/backend/ai_analyzer.py:113-116 | an absent FCP compares as 0 and `None` raises; the FCP line appears exactly when a reported FCP exceeds its threshold |
| AiAnalyzer.ScoreLines | apps/backend/ai_analyzer.py:117-120 | an absent score compares as 100 and `None` raises; the score line appears exactly when a reported score is under its threshold |
| AiAnalyzer.Fallback | apps/backend/ai_analyzer.py:101-122 | the fallback has at most three lines, in the order load time, FCP, score. The load-time line appears exactly when the time exceeds its threshold. Only available data can add other lines or raise. With unavailable data and a time within its threshold the result is empty |
| AiAnalyzer.FallbackFcpLine | apps/backend/ai_analyzer.py:112-116 | the FCP line appears exactly when the data is available and reports an FCP over its threshold |
| AiAnalyzer.FallbackScoreLine | apps/backend/ai_analyzer.py:112-120 | the score line appears exactly when the data is available and reports a score under its threshold |
| AiAnalyzer.FallbackAnalysis | apps/backend/ai_analyzer.py:101-122 | appending the lines one by one gives `Fallback` under the configured thresholds, including its errors |
| AiAnalyzer.AnalyzeScreenshots | apps/backend/ai_analyzer.py:49-99 | the prompt quotes the effective load time with the example listing; a reply is stripped, and a failed call falls back on the rules with the measured time |
| AiAnalyzer.FallbackUsesMeasuredTime | apps/backend/ai_analyzer.py:62-99 | the fallback judges the measured time even when the prompt quotes a different FCP |
| BackendAnalyzer.ParseArgs | apps/backend/analyzer.py:206-224 | the program runs exactly when one argument remains after removing the first save flag. It saves exactly when the flag was given, and the URL is normalised |
| BackendAnalyzer.ParseArgsCases | apps/backend/analyzer.py:206-220 | the flag may come before or after the URL; no argument, the flag alone, a doubled flag or two URLs give the usage |
| BackendAnalyzer.Fallback | apps/backend/analyzer.py:165-168 | the fallback is empty when the load time is at most 3 seconds, and otherwise exactly one slow-load line |
| BackendAnalyzer.FallbacksAgree | apps/backend/analyzer.py:165-168 | with the default threshold and no Lighthouse data, the backend's fallback and the AI analyzer's fallback agree line for line |
| BackendAnalyzer.AnalyzeScreenshots | apps/backend/analyzer.py:159-168 | a reply is stripped, and a failed call gives the one-rule fallback |
| BackendAnalyzer.Bullets | apps/backend/analyzer.py:240-242 | one bullet per issue, in order |
| BackendAnalyzer.BulletsSnoc | apps/backend/analyzer.py:240-242 | one more issue adds its bullet at the end |
| BackendAnalyzer.PrintIssues | apps/backend/analyzer.py:239-244 | a blank result prints only the no-issues notice; any other result prints one bullet per stripped non-blank line, in order, and at least one |

## Left out

- Playwright (launching browsers, opening, loading, photographing and closing pages) is not modelled. Browsers and tabs are fresh identifiers, and what a page run did is the input `PageRun`. `close` therefore only empties the list and unsets Playwright; failures while closing a page or browser are swallowed by the source and have no effect here.
- The `asyncio.Lock` of the pool is not modelled: `acquire`, `release` and `close` are atomic, sequential methods.
- The agent script's mobile refusal is left out. Its mobile `acquire` could be refused only if another request took the tab in between. Sequentially the desktop tab has just been given back, so the model proves that the second `acquire` succeeds.
- The duplicate pool in apps/agent/analyzer.py (lines 15-78) differs only in its launch flags, so one class models both copies.
- Lighthouse is not modelled: the Docker, subprocess and PageSpeed API runs and the metric extraction. The Lighthouse dictionary is an input, `LighthouseData`, whose metrics are absent, `None` or a real number. Its truth value is modelled as present-and-available.
- The language model call is an input: the reply, or a failed call. Base64 encoding, files and directories, saving or deleting screenshots, and the fixed wording of prompts, notices and messages are opaque.
- Floating-point arithmetic and `:.1f` formatting are not modelled: times and scores are `real`, and a formatted number is a `Seconds` piece.
- `datetime.now()` is not modelled: the error body's time stamp is a parameter.
- The five-minute `asyncio.wait_for` limit of the HTTP service is modelled as a possible outcome of the run, `TimedOut`.
- FastAPI routing and pydantic parsing are not modelled: `HttpUrl` validation and its normalisation of the URL string happen before `validate_url` and are left out. So are the server lifecycle hooks that create the global pool, which is a boolean `poolReady`, and the API-key header plumbing.
- `WebsiteAccessError` is modelled with its code and status, but the analyzer never raises it, so `Api.AnalyzeWebsite` has no branch for it.
- The service's outer `except asyncio.TimeoutError` (the "Request timed out" 408) is not modelled: the inner handler already converts the only timeout the analysis raises.
- The `--json` flag and JSON printing of the two agent command lines are not modelled; only the backend's argument handling (`BackendAnalyzer.ParseArgs`) is.
- `Text.Lower` maps only ASCII letters; Python's full Unicode `lower()` is not modelled. Whitespace for `strip` is the set `str.isspace()` accepts.
- The AI analyzer's fallback load-time message is the R2 template without the `"R2. "` prefix its other two lines carry. The message text is opaque, so this difference shows only as a separate `SlowLoad` line kind.
- AiAnalyzer.AnalyzeScreenshots: composes the intended load-time choice, `AiAnalyzer.EffectiveLoadTime`. The source as written raises before its `try` when Lighthouse data is available and its FCP is `None` or missing (`ValueError` or `TypeError` from the `:.1f` format at apps/backend/ai_analyzer.py:64). In those cases the model returns a prompt and a result instead. That raising behaviour is carried by `AiAnalyzer.PromptLoadTimeAsWritten` and recorded under Findings.
- Text.Strip: its own contract only bounds the length. What stripping means is stated by `Text.StripEnds`, `Text.StripIsInfix` and `Text.StripIdempotent`, to keep the function cheap to unfold.
- Issues.StrippedNonBlank: its own contract only bounds the length. Its meaning is stated by `Issues.IssuesAreStripped`, `Issues.StrippedNonBlankMembers` and `Issues.StrippedNonBlankSnoc`.
- Per-user credit balances, their daily refresh and write-back flushing are described for the product as a whole, but none of the files modelled here implements them, so the model has nothing of them; it follows the code.
- apps/agent/client_example.py is not part of this model: it is an HTTP client with no logic of its own.

## Findings

| source | as written | input that shows it | evidently intended | confidence | as-written member | corrected member |
|---|---|---|---|---|---|---|
| apps/backend/ai_analyzer.py:62-64 | with available Lighthouse data, line 64 formats `lighthouse_data.get('fcp_seconds', 'N/A')` with `:.1f`. A `None` FCP raises `TypeError` and a missing one gives the string `'N/A'`, which raises `ValueError`; either way the measured-time default of line 63 is never reached and the call fails | Lighthouse data `{"available": True, "performance_score": 80, "fcp_seconds": None}` (apps/agent/src/analyzer/analyzer.py:161-169 sets `fcp_seconds` to `None` when the audit has no FCP), or the same data with no `fcp_seconds` key | quote the reported FCP when there is one, and otherwise the measured load time | not executed | AiAnalyzer.PromptLoadTimeAsWritten, AiAnalyzer.MissingFcpDefaultIsDead | AiAnalyzer.EffectiveLoadTime, AiAnalyzer.EffectiveLoadTimeExtendsAsWritten |
