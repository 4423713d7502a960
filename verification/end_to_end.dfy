/**
 * The client and the analyze endpoint together: what the component shows
 * for each kind of reply the endpoint sends, and what a well-formed analysis
 * looks like once rendered.
 */
module EndToEnd {
  import opened Wrappers
  import opened JsValues
  import ResumeController
  import opened ResumeAnalyzerUi

  /** The verdict the prompt asks the model for. */
  datatype AnalysisResult = AnalysisResult(
    score: int,
    matchSummary: string,
    missingKeywords: seq<string>,
    strengths: seq<string>,
    weaknesses: seq<string>)

  /** A list of strings as a JSON array. */
  function StringArray(xs: seq<string>): seq<Json> {
    seq(|xs|, k requires 0 <= k < |xs| => JStr(xs[k]))
  }

  /** The analysis as the parsed JSON object the endpoint relays. */
  function ToJson(a: AnalysisResult): Json {
    JObj(map[
      "score" := JNum(a.score),
      "matchSummary" := JStr(a.matchSummary),
      "missingKeywords" := JArr(StringArray(a.missingKeywords)),
      "strengths" := JArr(StringArray(a.strengths)),
      "weaknesses" := JArr(StringArray(a.weaknesses))])
  }

  /**
   * Every error reply of the endpoint (400 or 500) carries `error` and no
   * `details`, so the client always shows "Analysis failed", never the
   * endpoint's own message; a 200 reply becomes the result as it is.
   */
  lemma ClientReadsEndpointReply(reply: ResumeController.Reply)
    requires reply.status == 200 || reply == ResumeController.ServerError()
             || reply == ResumeController.Reply(400, ResumeController.ErrorBody(ResumeController.MissingInputMessage))
    ensures reply.status == 200 ==> Settle(Responded(true, reply.body)) == Succeeded(reply.body)
    ensures reply.status != 200 ==> Settle(Responded(false, reply.body)) == Failed(FallbackMessage)
  {
    if reply.status != 200 {
      assert "details" !in reply.body.fields;
      assert Get(Some(reply.body), "details") == Normal(None);
    }
  }

  /**
   * While a request is in flight (just after StartAnalysis) the button is
   * disabled and reads "Analyzing...", and neither an error nor a result is shown.
   */
  lemma InFlightView(s: UiState)
    ensures var v := Render(s.(loading := true, error := None, result := JNull));
      && v.Normal?
      && v.value.buttonDisabled && v.value.buttonLabel == "Analyzing..."
      && v.value.errorPanel.None?
      && v.value.results == NoResultCard(JNull)
  {
  }

  /**
   * A well-formed analysis renders without error, and reading the card back
   * gives the source values: the score unchanged with a "%" after it, the
   * summary, and both lists item for item in their order.
   */
  lemma RenderShowsAnalysisUnchanged(s: UiState, a: AnalysisResult)
    requires s.result == ToJson(a)
    ensures Render(s).Normal? && Render(s).value.results.ResultCard?
    ensures var card := Render(s).value.results;
      && card.scoreBadge == [Text("Match Score: "), Slot(Some(JNum(a.score))), Text("%")]
      && card.summary == [Text("Summary: "), Slot(Some(JStr(a.matchSummary)))]
      && Contents(card.strengths) == StringArray(a.strengths)
      && Contents(card.weaknesses) == StringArray(a.weaknesses)
  {
    assert Field(s.result, "strengths") == Some(JArr(StringArray(a.strengths)));
    assert Field(s.result, "weaknesses") == Some(JArr(StringArray(a.weaknesses)));
    assert CardChildrenRenderable(s.result);
  }
}
