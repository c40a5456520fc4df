/**
 * The success body both HTTP services return: the URL, the measured load
 * time, the issue lines and the `lighthouse` block. The block starts out as
 * `{"available": False}` and is overwritten with the five metrics only when
 * the Lighthouse data says it is available. The screenshot paths and their
 * base64 encodings are not modelled.
 */
module Responses {
  import opened Outcomes

  /** One key of the Lighthouse dictionary: absent, present with `None`, or a number. */
  datatype Metric = Absent | Null | Number(value: real)

  /** The Lighthouse dictionary; `available` is the truth value of its `"available"` entry. */
  datatype LighthouseData = LighthouseData(
    available: bool,
    performanceScore: Metric,
    fcpSeconds: Metric,
    lcpSeconds: Metric,
    clsValue: Metric,
    tbtMs: Metric)

  /** The `lighthouse` entry of the response: the metrics are JSON numbers or `null`. */
  datatype Block =
    | Unavailable
    | Available(performanceScore: Option<real>, fcpSeconds: Option<real>, lcpSeconds: Option<real>,
                clsValue: Option<real>, tbtMs: Option<real>)

  /** `dict.get(key)`: an absent key and a `None` value both read as `None`. */
  function Get(m: Metric): (r: Option<real>)
    ensures r.Some? <==> m.Number?
    ensures r.Some? ==> r.value == m.value
  {
    if m.Number? then Some(m.value) else None
  }

  /** `lighthouse_data and lighthouse_data.get("available")`; `None` stands for a missing or empty dictionary. */
  predicate IsAvailable(data: Option<LighthouseData>)
  {
    data.Some? && data.value.available
  }

  /** The block the response ends with for the given Lighthouse data. */
  function BlockOf(data: Option<LighthouseData>): (b: Block)
    ensures b.Available? <==> IsAvailable(data)
    ensures b.Available? ==>
      && b.performanceScore == Get(data.value.performanceScore)
      && b.fcpSeconds == Get(data.value.fcpSeconds)
      && b.lcpSeconds == Get(data.value.lcpSeconds)
      && b.clsValue == Get(data.value.clsValue)
      && b.tbtMs == Get(data.value.tbtMs)
  {
    if IsAvailable(data) then
      var d := data.value;
      Available(Get(d.performanceScore), Get(d.fcpSeconds), Get(d.lcpSeconds), Get(d.clsValue), Get(d.tbtMs))
    else Unavailable
  }

  /** A metric reported by available Lighthouse data reaches the response unchanged, and one it lacks is sent as `null`. */
  lemma BlockCarriesMetrics(data: LighthouseData)
    requires data.available
    ensures var b := BlockOf(Some(data));
      && (data.fcpSeconds.Number? ==> b.fcpSeconds == Some(data.fcpSeconds.value))
      && (!data.fcpSeconds.Number? ==> b.fcpSeconds.None?)
      && (data.performanceScore.Number? ==> b.performanceScore == Some(data.performanceScore.value))
      && (!data.performanceScore.Number? ==> b.performanceScore.None?)
  {
  }

  /** The success body, without the screenshot entries. */
  datatype Response = Response(url: string, loadTime: real, issues: seq<string>, lighthouse: Block)

  /**
   * Build the body with the `{"available": False}` block, then overwrite the
   * block when the data is available.
   */
  method BuildResponse(url: string, loadTime: real, issues: seq<string>, data: Option<LighthouseData>)
    returns (response: Response)
    ensures response.url == url && response.loadTime == loadTime && response.issues == issues
    ensures response.lighthouse == BlockOf(data)
    ensures response.lighthouse.Unavailable? <==> !IsAvailable(data)
  {
    response := Response(url, loadTime, issues, Unavailable);
    if data.Some? && data.value.available {
      var d := data.value;
      response := response.(lighthouse := Available(Get(d.performanceScore), Get(d.fcpSeconds),
                                                    Get(d.lcpSeconds), Get(d.clsValue), Get(d.tbtMs)));
    }
  }
}
