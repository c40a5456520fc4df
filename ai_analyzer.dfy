/**
 * The backend's screenshot analyzer around the language model: the
 * thirteen response templates, the example listing put into the prompt,
 * the load time the prompt quotes, and the rule-based fallback used when
 * the model call fails. Template wording is opaque: a template is a
 * sequence of pieces, fixed wording or the load-time field. The model's
 * reply is an input.
 */
module AiAnalyzer {
  import opened Outcomes
  import opened Text
  import opened Responses
  import opened Settings

  /** A piece of message text: fixed wording (part `part` of template `key`), a literal, the `{load_time}` field, or a formatted number of seconds. */
  datatype Piece = Wording(key: string, part: nat) | Literal(text: string) | LoadTimeField | Seconds(value: real)

  datatype Template = Template(key: string, body: seq<Piece>)

  /** A template made of its wording alone. */
  function Plain(key: string): Template
  {
    Template(key, [Wording(key, 0)])
  }

  const TemplateKeys: seq<string> := ["R1", "R2", "R3", "R4", "R5", "R6", "R7", "R8", "R9", "R10", "R11", "R12", "R13"]

  /** `RESPONSE_TEMPLATES` in insertion order; R2 quotes the load time between two pieces of wording. */
  const Templates: seq<Template> := [
    Plain("R1"),
    Template("R2", [Wording("R2", 0), LoadTimeField, Wording("R2", 1)]),
    Plain("R3"), Plain("R4"), Plain("R5"), Plain("R6"), Plain("R7"),
    Plain("R8"), Plain("R9"), Plain("R10"), Plain("R11"), Plain("R12"), Plain("R13")]

  /** `'load_time' in template` */
  predicate MentionsLoadTime(body: seq<Piece>)
  {
    LoadTimeField in body
  }

  /** The templates are keyed R1 to R13 in order, and only R2 has a load-time field. */
  lemma TemplatesShape()
    ensures |Templates| == 13
    ensures forall i :: 0 <= i < |Templates| ==> Templates[i].key == TemplateKeys[i]
    ensures forall i :: 0 <= i < |Templates| ==> (MentionsLoadTime(Templates[i].body) <==> Templates[i].key == "R2")
  {
  }

  /** `template.format(load_time=t)`: the field becomes the number, everything else stays. */
  function Format(body: seq<Piece>, t: real): (r: seq<Piece>)
    ensures |r| == |body|
    ensures forall k :: 0 <= k < |body| ==> r[k] == (if body[k] == LoadTimeField then Seconds(t) else body[k])
    ensures LoadTimeField !in r
  {
    seq(|body|, k requires 0 <= k < |body| => if body[k] == LoadTimeField then Seconds(t) else body[k])
  }

  /** One line of the prompt's example listing: `"<key>. "` and the template, filled in when it mentions the load time. */
  function ExampleLine(template: Template, t: real): seq<Piece>
  {
    [Literal(template.key + ". ")] + (if MentionsLoadTime(template.body) then Format(template.body, t) else template.body)
  }

  /** The example listing of `_generate_analysis_prompt`, one line per template, to be joined with newlines. */
  function ExampleLines(t: real): (lines: seq<seq<Piece>>)
    ensures |lines| == |Templates|
    ensures forall i :: 0 <= i < |lines| ==> |lines[i]| >= 1 && lines[i][0] == Literal(Templates[i].key + ". ")
    ensures forall i :: 0 <= i < |lines| ==> LoadTimeField !in lines[i]
    ensures forall i :: 0 <= i < |lines| && !MentionsLoadTime(Templates[i].body) ==> lines[i][1..] == Templates[i].body
    ensures forall i :: 0 <= i < |lines| ==> |lines[i]| == 1 + |Templates[i].body|
  {
    seq(|Templates|, i requires 0 <= i < |Templates| => ExampleLine(Templates[i], t))
  }

  /** The listing names R1 to R13 in order, and its R2 line quotes the given load time. */
  lemma ExampleListing(t: real)
    ensures forall i :: 0 <= i < 13 ==> ExampleLines(t)[i][0] == Literal(TemplateKeys[i] + ". ")
    ensures ExampleLines(t)[1] == [Literal("R2. "), Wording("R2", 0), Seconds(t), Wording("R2", 1)]
  {
    TemplatesShape();
    var body := Templates[1].body;
    assert MentionsLoadTime(body) by {
      assert body[1] == LoadTimeField;
    }
    assert Format(body, t) == [Wording("R2", 0), Seconds(t), Wording("R2", 1)];
    assert ExampleLines(t)[1] == ExampleLine(Templates[1], t);
    assert Templates[1].key + ". " == "R2. ";
  }

  /** What Python raises while formatting or comparing a metric. */
  datatype PyError = TypeError | ValueError | KeyError

  /**
   * The load time the prompt quotes, as written: with available Lighthouse
   * data the FCP is quoted, and formatting the info line with `:.1f`
   * raises when the FCP is absent (the `'N/A'` default is a string) or
   * `None`; otherwise the measured load time.
   */
  function PromptLoadTimeAsWritten(loadTime: real, data: Option<LighthouseData>): (r: Result<real, PyError>)
    ensures !IsAvailable(data) ==> r == Ok(loadTime)
    ensures IsAvailable(data) ==> (r.Ok? <==> data.value.fcpSeconds.Number?)
    ensures IsAvailable(data) && r.Ok? ==> r.value == data.value.fcpSeconds.value
    ensures IsAvailable(data) && data.value.fcpSeconds.Absent? ==> r == Err(ValueError)
  {
    if IsAvailable(data) then
      match data.value.fcpSeconds
      case Absent => Err(ValueError)
      case Null => Err(TypeError)
      case Number(v) => Ok(v)
    else Ok(loadTime)
  }

  /** The measured-time default for a missing FCP never reaches the prompt: available data without an FCP makes the call raise. */
  lemma MissingFcpDefaultIsDead(loadTime: real, score: Metric)
    ensures var data := Some(LighthouseData(true, score, Absent, Absent, Absent, Absent));
      PromptLoadTimeAsWritten(loadTime, data) == Err(ValueError)
  {
  }

  /** The load time the prompt quotes, as intended: the reported FCP when Lighthouse is available and has one, else the measured time. */
  function EffectiveLoadTime(loadTime: real, data: Option<LighthouseData>): (t: real)
    ensures IsAvailable(data) && data.value.fcpSeconds.Number? ==> t == data.value.fcpSeconds.value
    ensures !(IsAvailable(data) && data.value.fcpSeconds.Number?) ==> t == loadTime
  {
    if IsAvailable(data) && data.value.fcpSeconds.Number? then data.value.fcpSeconds.value else loadTime
  }

  /** Wherever the code as written quotes a load time, the intended choice quotes the same one. */
  lemma EffectiveLoadTimeExtendsAsWritten(loadTime: real, data: Option<LighthouseData>)
    ensures PromptLoadTimeAsWritten(loadTime, data).Ok? ==>
      PromptLoadTimeAsWritten(loadTime, data).value == EffectiveLoadTime(loadTime, data)
  {
  }

  /** The three fallback messages: the unprefixed R2 template, and the two `"R2. "` lines for FCP and score. */
  datatype FallbackLine = SlowLoad(loadTime: real) | SlowFcp(fcpSeconds: real) | LowScore(score: real)

  /** Position of a message kind in the fallback's order. */
  function Rank(line: FallbackLine): nat
  {
    match line
    case SlowLoad(_) => 0
    case SlowFcp(_) => 1
    case LowScore(_) => 2
  }

  /** The three thresholds of the configuration. */
  datatype Thresholds = Thresholds(loadTime: real, performanceScore: real, fcp: real)

  function ThresholdsOf(config: Config): Thresholds
    reads config
  {
    Thresholds(config.loadTimeThreshold, config.performanceScoreThreshold as real, config.fcpThreshold)
  }

  /** The FCP message of available data: an absent FCP compares as 0 (and indexing it then fails), `None` cannot be compared. */
  function FcpLines(d: LighthouseData, threshold: real): (r: Result<seq<FallbackLine>, PyError>)
    ensures r.Err? <==> d.fcpSeconds.Null? || (d.fcpSeconds.Absent? && 0.0 > threshold)
    ensures r.Ok? ==> (r.value != [] <==> d.fcpSeconds.Number? && d.fcpSeconds.value > threshold)
    ensures r.Ok? && r.value != [] ==> r.value == [SlowFcp(d.fcpSeconds.value)]
  {
    match d.fcpSeconds
    case Absent => if 0.0 > threshold then Err(KeyError) else Ok([])
    case Null => Err(TypeError)
    case Number(v) => if v > threshold then Ok([SlowFcp(v)]) else Ok([])
  }

  /** The score message of available data: an absent score compares as 100 (and indexing it then fails), `None` cannot be compared. */
  function ScoreLines(d: LighthouseData, threshold: real): (r: Result<seq<FallbackLine>, PyError>)
    ensures r.Err? <==> d.performanceScore.Null? || (d.performanceScore.Absent? && 100.0 < threshold)
    ensures r.Ok? ==> (r.value != [] <==> d.performanceScore.Number? && d.performanceScore.value < threshold)
    ensures r.Ok? && r.value != [] ==> r.value == [LowScore(d.performanceScore.value)]
  {
    match d.performanceScore
    case Absent => if 100.0 < threshold then Err(KeyError) else Ok([])
    case Null => Err(TypeError)
    case Number(v) => if v < threshold then Ok([LowScore(v)]) else Ok([])
  }

  /**
   * `_fallback_analysis` as a value: the load-time message when the time is
   * over its threshold, then, for available data only, the FCP and score
   * messages; a `None` metric makes the comparison raise.
   */
  function Fallback(th: Thresholds, loadTime: real, data: Option<LighthouseData>): (r: Result<seq<FallbackLine>, PyError>)
    ensures r.Err? ==> IsAvailable(data)
    ensures IsAvailable(data) && (data.value.fcpSeconds.Null? || data.value.performanceScore.Null?) ==> r.Err?
    ensures r.Ok? ==> |r.value| <= 3
    ensures r.Ok? ==> forall i, j :: 0 <= i < j < |r.value| ==> Rank(r.value[i]) < Rank(r.value[j])
    ensures r.Ok? ==> (SlowLoad(loadTime) in r.value <==> loadTime > th.loadTime)
    ensures r.Ok? ==> forall k :: 0 <= k < |r.value| && r.value[k].SlowLoad? ==> r.value[k] == SlowLoad(loadTime)
    ensures r.Ok? ==> forall k :: 0 <= k < |r.value| && !r.value[k].SlowLoad? ==> IsAvailable(data)
    ensures !IsAvailable(data) && loadTime <= th.loadTime ==> r == Ok([])
  {
    var loadLines := if loadTime > th.loadTime then [SlowLoad(loadTime)] else [];
    if !IsAvailable(data) then Ok(loadLines)
    else
      var d := data.value;
      match FcpLines(d, th.fcp)
      case Err(e) => Err(e)
      case Ok(fcpLines) =>
        match ScoreLines(d, th.performanceScore)
        case Err(e) => Err(e)
        case Ok(scoreLines) => Ok(loadLines + fcpLines + scoreLines)
  }

  /** With available data, the FCP message appears exactly when a reported FCP is over its threshold. */
  lemma FallbackFcpLine(th: Thresholds, loadTime: real, data: Option<LighthouseData>)
    requires Fallback(th, loadTime, data).Ok?
    ensures var lines := Fallback(th, loadTime, data).value;
      (exists k :: 0 <= k < |lines| && lines[k].SlowFcp?) <==>
        IsAvailable(data) && data.value.fcpSeconds.Number? && data.value.fcpSeconds.value > th.fcp
  {
    var lines := Fallback(th, loadTime, data).value;
    var loadLines := if loadTime > th.loadTime then [SlowLoad(loadTime)] else [];
    if IsAvailable(data) {
      var d := data.value;
      var f := FcpLines(d, th.fcp).value;
      var s := ScoreLines(d, th.performanceScore).value;
      assert lines == loadLines + f + s;
      forall k | 0 <= k < |lines| && lines[k].SlowFcp? ensures f != [] {
        assert k >= |loadLines|;
        assert k < |loadLines| + |f|;
      }
      if f != [] {
        assert lines[|loadLines|] == f[0];
      }
    } else {
      assert lines == loadLines;
    }
  }

  /** With available data, the score message appears exactly when a reported score is under its threshold. */
  lemma FallbackScoreLine(th: Thresholds, loadTime: real, data: Option<LighthouseData>)
    requires Fallback(th, loadTime, data).Ok?
    ensures var lines := Fallback(th, loadTime, data).value;
      (exists k :: 0 <= k < |lines| && lines[k].LowScore?) <==>
        IsAvailable(data) && data.value.performanceScore.Number? && data.value.performanceScore.value < th.performanceScore
  {
    var lines := Fallback(th, loadTime, data).value;
    var loadLines := if loadTime > th.loadTime then [SlowLoad(loadTime)] else [];
    if IsAvailable(data) {
      var d := data.value;
      var f := FcpLines(d, th.fcp).value;
      var s := ScoreLines(d, th.performanceScore).value;
      assert lines == (loadLines + f) + s;
      forall k | 0 <= k < |lines| && lines[k].LowScore? ensures s != [] {
        assert k >= |loadLines| + |f|;
      }
      if s != [] {
        assert lines[|loadLines| + |f|] == s[0];
      }
    } else {
      assert lines == loadLines;
    }
  }

  /** `_fallback_analysis`: the messages are appended one by one. */
  method FallbackAnalysis(config: Config, loadTime: real, data: Option<LighthouseData>)
    returns (r: Result<seq<FallbackLine>, PyError>)
    ensures r == Fallback(ThresholdsOf(config), loadTime, data)
  {
    var results: seq<FallbackLine> := [];
    if loadTime > config.loadTimeThreshold {
      results := results + [SlowLoad(loadTime)];
    }
    ghost var th := ThresholdsOf(config);
    ghost var loadLines := results;
    assert loadLines == (if loadTime > th.loadTime then [SlowLoad(loadTime)] else []);
    if data.Some? && data.value.available {
      var d := data.value;
      match d.fcpSeconds {
        case Absent =>
          if 0.0 > config.fcpThreshold {
            return Err(KeyError);
          }
        case Null =>
          return Err(TypeError);
        case Number(v) =>
          if v > config.fcpThreshold {
            results := results + [SlowFcp(v)];
          }
      }
      ghost var withFcp := results;
      assert withFcp == loadLines + FcpLines(d, th.fcp).value;
      match d.performanceScore {
        case Absent =>
          if 100.0 < config.performanceScoreThreshold as real {
            return Err(KeyError);
          }
        case Null =>
          return Err(TypeError);
        case Number(v) =>
          if v < config.performanceScoreThreshold as real {
            results := results + [LowScore(v)];
          }
      }
      assert results == withFcp + ScoreLines(d, th.performanceScore).value;
      assert FcpLines(d, th.fcp) == Ok(FcpLines(d, th.fcp).value);
      assert ScoreLines(d, th.performanceScore) == Ok(ScoreLines(d, th.performanceScore).value);
      assert Fallback(th, loadTime, data) == Ok(loadLines + FcpLines(d, th.fcp).value + ScoreLines(d, th.performanceScore).value);
    }
    return Ok(results);
  }

  /** The model's reply: its content, or a failed call. */
  datatype LlmReply = Answered(content: string) | CallFailed

  /** What `analyze_screenshots` returns: the stripped reply, or the fallback messages to be joined with newlines. */
  datatype Analysis = Answer(text: string) | FallbackAnswer(lines: seq<FallbackLine>)

  /** The parts of the prompt that depend on the inputs: the quoted load time and the example listing. */
  datatype Prompt = Prompt(loadTime: real, examples: seq<seq<Piece>>)

  /**
   * `analyze_screenshots` with the intended load-time choice: the prompt
   * quotes the effective load time, a reply is stripped, and a failed call
   * falls back on the rules, which get the measured load time.
   */
  function AnalyzeScreenshots(th: Thresholds, loadTime: real, data: Option<LighthouseData>, reply: LlmReply)
    : (r: (Prompt, Result<Analysis, PyError>))
    ensures r.0.loadTime == EffectiveLoadTime(loadTime, data) && r.0.examples == ExampleLines(r.0.loadTime)
    ensures reply.Answered? ==> r.1 == Ok(Answer(Strip(reply.content)))
    ensures reply.CallFailed? ==> (r.1.Err? <==> Fallback(th, loadTime, data).Err?)
    ensures reply.CallFailed? && r.1.Ok? ==> r.1.value == FallbackAnswer(Fallback(th, loadTime, data).value)
  {
    var t := EffectiveLoadTime(loadTime, data);
    var prompt := Prompt(t, ExampleLines(t));
    match reply
    case Answered(content) => (prompt, Ok(Answer(Strip(content))))
    case CallFailed =>
      match Fallback(th, loadTime, data)
      case Err(e) => (prompt, Err(e))
      case Ok(lines) => (prompt, Ok(FallbackAnswer(lines)))
  }

  /** The fallback judges the measured time even when the prompt quotes a different FCP. */
  lemma FallbackUsesMeasuredTime(th: Thresholds, loadTime: real, fcp: real, score: real)
    requires loadTime > th.loadTime && fcp <= th.fcp && score >= th.performanceScore
    ensures var data := Some(LighthouseData(true, Number(score), Number(fcp), Absent, Absent, Absent));
      var r := AnalyzeScreenshots(th, loadTime, data, CallFailed);
      && r.0.loadTime == fcp
      && r.1 == Ok(FallbackAnswer([SlowLoad(loadTime)]))
  {
    var data := Some(LighthouseData(true, Number(score), Number(fcp), Absent, Absent, Absent));
    assert FcpLines(data.value, th.fcp) == Ok([]);
    assert ScoreLines(data.value, th.performanceScore) == Ok([]);
    assert [SlowLoad(loadTime)] + [] + [] == [SlowLoad(loadTime)];
    assert Fallback(th, loadTime, data) == Ok([SlowLoad(loadTime)]);
  }
}
