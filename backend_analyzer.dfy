/**
 * The backend's command-line analyzer: its argument handling, its own
 * one-rule fallback when the model call fails, and the printing of the
 * issue lines. The model's reply is an input; printing is modelled as the
 * sequence of lines printed under the issues heading.
 */
module BackendAnalyzer {
  import opened Text
  import opened Urls
  import opened Issues
  import opened Outcomes
  import opened Responses
  import AiAnalyzer
  import Settings

  const SaveFlag := "--save-screenshots"

  /** Run on a URL, saving screenshots or not, or print the usage and exit with status 1. */
  datatype Invocation = Run(url: string, saveScreenshots: bool) | Usage

  /** `main`'s argument handling on `sys.argv[1:]`: drop the first save flag, then exactly one argument must remain. */
  function ParseArgs(args: seq<string>): (inv: Invocation)
    ensures inv.Run? <==> |RemoveFirst(args, SaveFlag)| == 1
    ensures inv.Run? ==> inv.saveScreenshots == (SaveFlag in args)
    ensures inv.Run? ==> inv.url == NormalizeUrl(RemoveFirst(args, SaveFlag)[0]) && HasScheme(inv.url)
  {
    var save := SaveFlag in args;
    var rest := RemoveFirst(args, SaveFlag);
    if |rest| != 1 then Usage else Run(NormalizeUrl(rest[0]), save)
  }

  /** The flag may come before or after the URL; alone, doubled, or with two URLs the program prints its usage. */
  lemma {:induction false} ParseArgsCases(url: string, other: string)
    requires url != SaveFlag && other != SaveFlag
    ensures ParseArgs([url]) == Run(NormalizeUrl(url), false)
    ensures ParseArgs([url, SaveFlag]) == Run(NormalizeUrl(url), true)
    ensures ParseArgs([SaveFlag, url]) == Run(NormalizeUrl(url), true)
    ensures ParseArgs([]) == Usage && ParseArgs([SaveFlag]) == Usage
    ensures ParseArgs([SaveFlag, SaveFlag, url]) == Usage
    ensures ParseArgs([url, other]) == Usage
  {
    assert SaveFlag !in [url];
    assert SaveFlag !in [url, other];
    assert IndexOf([url, SaveFlag], SaveFlag) == 1;
    assert [url, SaveFlag][..1] == [url];
    assert IndexOf([SaveFlag, url], SaveFlag) == 0;
    assert [SaveFlag, url][1..] == [url];
    assert IndexOf([SaveFlag], SaveFlag) == 0;
    assert IndexOf([SaveFlag, SaveFlag, url], SaveFlag) == 0;
  }

  /** The backend's only fallback message: the `"R2. "`-prefixed slow-load line. */
  datatype FallbackLine = SlowPage(loadTime: real)

  /** The fallback of `_analyze_screenshots`: one message exactly when the load took more than 3 seconds. */
  function Fallback(loadTime: real): (lines: seq<FallbackLine>)
    ensures |lines| <= 1
    ensures lines == [] <==> loadTime <= 3.0
    ensures lines != [] ==> lines == [SlowPage(loadTime)]
  {
    if loadTime > 3.0 then [SlowPage(loadTime)] else []
  }

  /**
   * With the default threshold and no Lighthouse data, the backend's
   * fallback and the analyzer module's fallback raise the alarm for the
   * same load times, about the same time.
   */
  lemma FallbacksAgree(loadTime: real, th: AiAnalyzer.Thresholds)
    requires th.loadTime == Settings.DefaultLoadTimeThreshold
    ensures AiAnalyzer.Fallback(th, loadTime, None).Ok?
    ensures var ai := AiAnalyzer.Fallback(th, loadTime, None).value;
      && |ai| == |Fallback(loadTime)|
      && forall k :: 0 <= k < |ai| ==> ai[k] == AiAnalyzer.SlowLoad(Fallback(loadTime)[k].loadTime)
  {
  }

  /** What `_analyze_screenshots` returns: the stripped reply, or the fallback messages joined with newlines. */
  datatype Analysis = Answer(text: string) | FallbackAnswer(lines: seq<FallbackLine>)

  function AnalyzeScreenshots(loadTime: real, reply: AiAnalyzer.LlmReply): (r: Analysis)
    ensures reply.Answered? ==> r == Answer(Strip(reply.content))
    ensures reply.CallFailed? ==> r == FallbackAnswer(Fallback(loadTime))
  {
    match reply
    case Answered(content) => Answer(Strip(content))
    case CallFailed => FallbackAnswer(Fallback(loadTime))
  }

  /** A line printed under the issues heading: a bulleted issue, or the no-issues notice. */
  datatype Printed = Bullet(text: string) | NoIssuesFound

  function Bullets(lines: seq<string>): (r: seq<Printed>)
    ensures |r| == |lines|
    ensures forall k :: 0 <= k < |lines| ==> r[k] == Bullet(lines[k])
  {
    seq(|lines|, k requires 0 <= k < |lines| => Bullet(lines[k]))
  }

  lemma BulletsSnoc(lines: seq<string>, line: string)
    ensures Bullets(lines + [line]) == Bullets(lines) + [Bullet(line)]
  {
  }

  /**
   * The printing loop of `main`: one bullet per non-blank line, stripped and
   * in order, or the no-issues notice when the whole text is blank.
   */
  method PrintIssues(results: string) returns (printed: seq<Printed>)
    ensures Blank(results) ==> printed == [NoIssuesFound]
    ensures !Blank(results) ==> printed == Bullets(IssueLines(results)) && printed != []
  {
    if Strip(results) != [] {
      printed := [];
      ghost var issues: seq<string> := [];
      var lines := Split(results);
      var i := 0;
      while i < |lines|
        invariant 0 <= i <= |lines|
        invariant issues == StrippedNonBlank(lines[..i])
        invariant printed == Bullets(issues)
      {
        var line := Strip(lines[i]);
        StrippedNonBlankStep(lines, i);
        if line != [] {
          BulletsSnoc(issues, line);
          printed := printed + [Bullet(line)];
          issues := issues + [line];
        }
        i := i + 1;
      }
      assert lines[..i] == lines;
      StripEnds(results);
      StrippedEmptyNoIssues(results);
    } else {
      assert Blank(results) by {
        StripEnds(results);
      }
      printed := [NoIssuesFound];
    }
  }
}
