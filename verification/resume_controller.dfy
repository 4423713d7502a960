/**
 * The analyze endpoint (`analyzeResume`): validate the upload, extract the
 * résumé text, prompt the generative model, strip markdown fences from its
 * answer, parse it as JSON and relay it; every failure becomes one fixed 500.
 *
 * The three collaborators (the PDF text extractor, the model call and
 * `JSON.parse`) are parameters: total functions that either give a value or
 * fail (`None`). The handler reports which of them it called, in order.
 */
module ResumeController {
  import opened Wrappers
  import opened JsStrings
  import opened JsValues

  /** `req.file` as the upload middleware fills it: the raw bytes of the résumé. */
  datatype UploadedFile = UploadedFile(buffer: seq<bv8>)

  /** The parts of the request the handler reads: `req.file` and `req.body.jobDescription`. */
  datatype AnalyzeRequest = AnalyzeRequest(file: Option<UploadedFile>, jobDescription: Option<string>)

  /** What the handler writes into `res`: a status code and a JSON body. */
  datatype Reply = Reply(status: int, body: Json)

  /** A call into a collaborator, with the argument it was given. */
  datatype Call = ExtractText(buffer: seq<bv8>) | GenerateContent(prompt: string) | ParseJson(text: string)

  const MissingInputMessage := "Resume file and Job Description are required"
  const FailureMessage := "Failed to analyze resume"

  /** `{ error: message }`, the only error body this handler sends. */
  function ErrorBody(message: string): Json {
    JObj(map["error" := JStr(message)])
  }

  /** `req.file` is present and `req.body.jobDescription` is truthy (a non-empty string). */
  predicate HasRequiredInputs(req: AnalyzeRequest) {
    req.file.Some? && req.jobDescription.Some? && req.jobDescription.value != ""
  }

  // ---------------------------------------------------------------------
  // The prompt
  // ---------------------------------------------------------------------

  /** The indentation the template literal carries on each of its lines. */
  const Indent := "            "

  const PromptHead :=
    "\n" + Indent + "You are an expert Resume ATS Scanner. Analyze this resume against the job description.\n"
    + Indent + "\n"
    + Indent + "RESUME TEXT: \n"
    + Indent

  const PromptMiddle :=
    "\n" + Indent + "\n"
    + Indent + "JOB DESCRIPTION: \n"
    + Indent

  const PromptTail :=
    "\n" + Indent + "\n"
    + Indent + "Output strictly in this JSON format (no markdown code blocks, just raw JSON):\n"
    + Indent + "{\n"
    + Indent + "    \"score\": 0,\n"
    + Indent + "    \"matchSummary\": \"A short summary...\",\n"
    + Indent + "    \"missingKeywords\": [\"skill1\", \"skill2\"],\n"
    + Indent + "    \"strengths\": [\"strength1\", \"strength2\"],\n"
    + Indent + "    \"weaknesses\": [\"weakness1\", \"weakness2\"]\n"
    + Indent + "}\n"
    + "        "

  /** The prompt template with the résumé text and the job description filled in. */
  function BuildPrompt(resumeText: string, jobDescription: string): string {
    PromptHead + resumeText + PromptMiddle + jobDescription + PromptTail
  }

  /**
   * Both texts sit verbatim in the prompt, the résumé under its heading first
   * and the job description under its heading after it.
   */
  lemma PromptEmbedsInputs(resumeText: string, jobDescription: string)
    ensures var p := BuildPrompt(resumeText, jobDescription);
      var r := |PromptHead|;
      var j := r + |resumeText| + |PromptMiddle|;
      && |p| == j + |jobDescription| + |PromptTail|
      && p[..r] == PromptHead
      && p[r..r + |resumeText|] == resumeText
      && p[r + |resumeText|..j] == PromptMiddle
      && p[j..j + |jobDescription|] == jobDescription
      && p[j + |jobDescription|..] == PromptTail
    ensures Contains(BuildPrompt(resumeText, jobDescription), resumeText)
    ensures Contains(BuildPrompt(resumeText, jobDescription), jobDescription)
  {
    FiveParts(PromptHead, resumeText, PromptMiddle, jobDescription, PromptTail);
  }

  /** The five pieces of a concatenation sit at their offsets. */
  lemma FiveParts(a: string, b: string, c: string, d: string, e: string)
    ensures var p := a + b + c + d + e;
      var j := |a| + |b| + |c|;
      && |p| == j + |d| + |e|
      && p[..|a|] == a
      && p[|a|..|a| + |b|] == b
      && p[|a| + |b|..j] == c
      && p[j..j + |d|] == d
      && p[j + |d|..] == e
    ensures Contains(a + b + c + d + e, b) && Contains(a + b + c + d + e, d)
  {
    var p := a + b + c + d + e;
    var j := |a| + |b| + |c|;
    assert p[|a|..|a| + |b|] == b && p[j..j + |d|] == d;
    OccursContains(p, b, |a|);
    OccursContains(p, d, j);
  }

  /** Given the résumé's length, the prompt determines both inputs. */
  lemma PromptDeterminesInputs(r1: string, j1: string, r2: string, j2: string)
    requires |r1| == |r2|
    requires BuildPrompt(r1, j1) == BuildPrompt(r2, j2)
    ensures r1 == r2 && j1 == j2
  {
    PromptEmbedsInputs(r1, j1);
    PromptEmbedsInputs(r2, j2);
  }

  // ---------------------------------------------------------------------
  // Fence stripping: text.replace(/```json/g, '').replace(/```/g, '').trim()
  // ---------------------------------------------------------------------

  const Fence := "```"
  const JsonFence := "```json"

  /** The clean-up applied to the model's answer before it is parsed. */
  function StripFences(text: string): string {
    Trim(RemoveAll(RemoveAll(text, JsonFence), Fence))
  }

  /**
   * After a left-to-right removal of every triple backtick, none is left:
   * the removal never glues two remnants into a new one.
   */
  lemma {:induction false} RemoveAllFencesLeavesNone(s: string)
    ensures !Contains(RemoveAll(s, Fence), Fence)
    decreases |s|
  {
    if |s| < |Fence| {
      assert RemoveAll(s, Fence) == s;
      if Contains(s, Fence) {
        ContainsIffOccurs(s, Fence);
      }
    } else if Fence <= s {
      RemoveAllFencesLeavesNone(s[|Fence|..]);
    } else {
      var tail := s[1..];
      var r := RemoveAll(tail, Fence);
      RemoveAllFencesLeavesNone(tail);
      assert RemoveAll(s, Fence) == [s[0]] + r;
      // A new fence could only start at the first character: that needs
      // s[0] to be a backtick and r to start with two more, which the
      // left-to-right scan rules out.
      if s[0] == '`' {
        if s[1] != '`' {
          RemoveAllKeepsHead(tail, Fence);
          assert r[0] != '`';
        } else if |tail| < |Fence| {
          assert r == tail;
          assert r[1] != '`';
        } else {
          assert !(Fence <= tail);
          assert r == [tail[0]] + RemoveAll(tail[1..], Fence);
          RemoveAllKeepsHead(tail[1..], Fence);
          assert r[1] != '`';
        }
      }
      assert ([s[0]] + r)[1..] == r;
    }
  }

  /** No triple backtick survives fence stripping. */
  lemma StripFencesLeavesNoFence(text: string)
    ensures !Contains(StripFences(text), Fence)
  {
    var removed := RemoveAll(RemoveAll(text, JsonFence), Fence);
    RemoveAllFencesLeavesNone(RemoveAll(text, JsonFence));
    TrimKeepsAbsence(removed, Fence);
  }

  /** Fence stripping is idempotent. */
  lemma StripFencesIdempotent(text: string)
    ensures StripFences(StripFences(text)) == StripFences(text)
  {
    var once := StripFences(text);
    StripFencesLeavesNoFence(text);
    assert JsonFence == Fence + "json";
    if Contains(once, JsonFence) {
      ContainsExtended(once, Fence, "json");
    }
    RemoveAllAbsent(once, JsonFence);
    RemoveAllAbsent(once, Fence);
    TrimOfTrimmed(once);
  }

  /** Text without backticks goes through both removals unchanged. */
  lemma StripFencesOfPlain(text: string)
    requires '`' !in text
    ensures StripFences(text) == Trim(text)
  {
    RemoveAllPlainPrefix(text, "", JsonFence);
    RemoveAllPlainPrefix(text, "", Fence);
    assert text + "" == text;
  }

  /**
   * A body wrapped as ```json BODY ``` with no backtick inside comes out as
   * the trimmed body; a backtick-free body without surrounding whitespace
   * comes out unchanged. So the fenced and the bare answer parse alike.
   */
  lemma StripFencesUnwraps(body: string)
    requires '`' !in body
    ensures StripFences(JsonFence + body + Fence) == Trim(body)
    ensures StripFences(JsonFence + body + Fence) == StripFences(body)
    ensures body == [] || (!IsJsSpace(body[0]) && !IsJsSpace(body[|body| - 1])) ==> StripFences(body) == body
  {
    var wrapped := JsonFence + body + Fence;
    assert JsonFence <= wrapped;
    assert wrapped[|JsonFence|..] == body + Fence;
    assert RemoveAll(wrapped, JsonFence) == RemoveAll(body + Fence, JsonFence);
    RemoveAllPlainPrefix(body, Fence, JsonFence);
    assert RemoveAll(Fence, JsonFence) == Fence;
    RemoveAllPlainPrefix(body, Fence, Fence);
    assert RemoveAll(Fence, Fence) == "";
    assert body + "" == body;
    StripFencesOfPlain(body);
    if body == [] || (!IsJsSpace(body[0]) && !IsJsSpace(body[|body| - 1])) {
      TrimOfTrimmed(body);
    }
  }

  // ---------------------------------------------------------------------
  // The handler
  // ---------------------------------------------------------------------

  /** `res.status(500).json({ error: "Failed to analyze resume" })`. */
  function ServerError(): Reply {
    Reply(500, ErrorBody(FailureMessage))
  }

  /**
   * `analyzeResume`. `extract` stands for `pdfParse(buffer).text`, `generate`
   * for `model.generateContent(prompt)` followed by `response.text()`, and
   * `parse` for `JSON.parse`; `None` is a thrown error, which the handler's
   * catch turns into the fixed 500 reply.
   */
  method AnalyzeResume(
    req: AnalyzeRequest,
    extract: seq<bv8> -> Option<string>,
    generate: string -> Option<string>,
    parse: string -> Option<Json>
  ) returns (reply: Reply, calls: seq<Call>)
    // Missing input: 400 with the fixed message, before any collaborator is called.
    ensures reply.status == 400 <==> !HasRequiredInputs(req)
    ensures !HasRequiredInputs(req) ==> reply == Reply(400, ErrorBody(MissingInputMessage)) && calls == []
    // Otherwise the collaborators run in order, each on what the previous step produced,
    // and the first failure ends the request with the fixed 500.
    ensures HasRequiredInputs(req) ==>
      var buffer := req.file.value.buffer;
      match extract(buffer)
      case None => calls == [ExtractText(buffer)] && reply == ServerError()
      case Some(resumeText) =>
        var prompt := BuildPrompt(resumeText, req.jobDescription.value);
        match generate(prompt)
        case None => calls == [ExtractText(buffer), GenerateContent(prompt)] && reply == ServerError()
        case Some(answer) =>
          var text := StripFences(answer);
          && calls == [ExtractText(buffer), GenerateContent(prompt), ParseJson(text)]
          && reply == (match parse(text)
                       case Some(parsed) => Reply(200, parsed)
                       case None => ServerError())
    // Success: the body is exactly the parsed value, parsed from fence-free text.
    ensures reply.status == 200 ==>
      |calls| == 3 && calls[2].ParseJson? && !Contains(calls[2].text, Fence)
      && parse(calls[2].text) == Some(reply.body)
    // Every other outcome is the fixed 500 body: no details field, no partial result.
    ensures reply.status != 200 && reply.status != 400 ==> reply == ServerError()
    ensures reply.status in {200, 400, 500}
  {
    if req.file.None? || req.jobDescription.None? || req.jobDescription.value == "" {
      reply := Reply(400, ErrorBody(MissingInputMessage));
      calls := [];
      return;
    }
    var jobDescription := req.jobDescription.value;

    var buffer := req.file.value.buffer;
    calls := [ExtractText(buffer)];
    var pdfText := extract(buffer);
    if pdfText.None? {
      reply := ServerError();
      return;
    }
    var resumeText := pdfText.value;

    var prompt := BuildPrompt(resumeText, jobDescription);
    calls := calls + [GenerateContent(prompt)];
    var response := generate(prompt);
    if response.None? {
      reply := ServerError();
      return;
    }

    var text := response.value;
    text := StripFences(text);
    StripFencesLeavesNoFence(response.value);

    calls := calls + [ParseJson(text)];
    var jsonResponse := parse(text);
    if jsonResponse.None? {
      reply := ServerError();
      return;
    }
    reply := Reply(200, jsonResponse.value);
  }
}
