/**
 * The `ResumeAnalyzer` component: five pieces of state, the submit handler
 * that moves them through a fixed sequence (guard, clear, settle, stop
 * loading), and the render, which is a function of the state.
 *
 * `handleAnalyze` awaits twice: `fetch(...)` and then `response.json()`. The
 * class splits it at the first await into StartAnalysis (everything before
 * the request is issued) and SettleAnalysis (everything after), and
 * HandleAnalyze runs the two in turn. Both awaits together are the parameter
 * `outcome`; nothing between them reads or writes the state.
 */
module ResumeAnalyzerUi {
  import opened Wrappers
  import opened JsValues

  /** A `File` picked in the file input. */
  datatype FileRef = FileRef(name: string, bytes: seq<bv8>)

  /** The multipart body: the `resume` part and the `jobDescription` field. */
  datatype FormData = FormData(resume: FileRef, jobDescription: string)

  /** How the awaited `fetch(...)` and `response.json()` ended. */
  datatype ServerOutcome =
    | FetchRejected(message: string)      // fetch threw (network failure); `message` is err.message
    | BodyUnreadable(message: string)     // response.json() threw; `message` is err.message
    | Responded(ok: bool, data: Json)     // the body parsed; `ok` is response.ok

  const FallbackMessage := "Analysis failed"

  /** The message of the TypeError thrown when `data.details` is read from a `null` body. */
  const NullDetailsMessage := "Cannot read properties of null (reading 'details')"

  /** The message of `new Error(data.details || "Analysis failed")`. */
  function FailureMessageFor(data: Json): (m: string)
    ensures (data.JObj? && "details" in data.fields && data.fields["details"].JStr?
             && data.fields["details"].s != "") ==> m == data.fields["details"].s
    ensures data != JNull && !Truthy(Get(Some(data), "details").value) ==> m == FallbackMessage
    ensures data == JNull ==> m == NullDetailsMessage
    // any truthy `details` becomes the message through `String(details)`
    ensures data.JObj? && Truthy(Field(data, "details")) ==> m == ToJsString(Field(data, "details").value)
  {
    match Get(Some(data), "details")
    case Throws => NullDetailsMessage
    case Normal(details) => if Truthy(details) then ToJsString(details.value) else FallbackMessage
  }

  /** What the awaited part of the handler decides: a result to show, or an error message. */
  datatype Settlement = Succeeded(data: Json) | Failed(message: string)

  /** The try/catch around the request: an ok response succeeds with its body, anything else fails. */
  function Settle(outcome: ServerOutcome): (s: Settlement)
    ensures s.Succeeded? <==> outcome.Responded? && outcome.ok
    ensures s.Succeeded? ==> s.data == outcome.data
    ensures outcome.Responded? && !outcome.ok ==> s == Failed(FailureMessageFor(outcome.data))
    ensures outcome.FetchRejected? || outcome.BodyUnreadable? ==> s == Failed(outcome.message)
  {
    match outcome
    case FetchRejected(message) => Failed(message)
    case BodyUnreadable(message) => Failed(message)
    case Responded(ok, data) => if ok then Succeeded(data) else Failed(FailureMessageFor(data))
  }

  /** The component's state; `result` is `JNull` while there is none, `error` is `None` for `null`. */
  datatype UiState = UiState(
    file: Option<FileRef>,
    jobDescription: string,
    result: Json,
    loading: bool,
    error: Option<string>)

  /** The submit guard: a file is chosen and the job description is not empty. */
  predicate ReadyToSubmit(s: UiState) {
    s.file.Some? && s.jobDescription != ""
  }

  class ResumeAnalyzer {
    var file: Option<FileRef>
    var jobDescription: string
    var result: Json
    var loading: bool
    var error: Option<string>

    function State(): UiState
      reads this
    {
      UiState(file, jobDescription, result, loading, error)
    }

    /** The initial state of the five `useState` hooks. */
    constructor ()
      ensures State() == UiState(None, "", JNull, false, None)
    {
      file := None;
      jobDescription := "";
      result := JNull;
      loading := false;
      error := None;
    }

    /** `handleFileChange`: keeps the first chosen file, or `undefined` when none is. */
    method HandleFileChange(files: seq<FileRef>)
      modifies this
      ensures file == (if |files| > 0 then Some(files[0]) else None)
      ensures jobDescription == old(jobDescription) && result == old(result)
      ensures loading == old(loading) && error == old(error)
    {
      file := if |files| > 0 then Some(files[0]) else None;
    }

    /** The textarea's `onChange`: the job description follows the input. */
    method HandleJobDescriptionChange(value: string)
      modifies this
      ensures State() == old(State()).(jobDescription := value)
    {
      jobDescription := value;
    }

    /**
     * `handleAnalyze` up to the request: without a file or a job description
     * nothing changes and nothing is sent; otherwise loading starts, the old
     * error and result are cleared, and the form is sent.
     */
    method StartAnalysis() returns (request: Option<FormData>)
      modifies this
      ensures !ReadyToSubmit(old(State())) ==> request == None && State() == old(State())
      ensures ReadyToSubmit(old(State())) ==>
        && request == Some(FormData(old(file).value, old(jobDescription)))
        && State() == old(State()).(loading := true, error := None, result := JNull)
    {
      if file.None? || jobDescription == "" {
        // alert(...) is shown here; it changes no state
        return None;
      }
      loading := true;
      error := None;
      result := JNull;
      request := Some(FormData(file.value, jobDescription));
    }

    /**
     * `handleAnalyze` after the request: an ok response sets the result, any
     * failure sets the error, and `finally` clears loading.
     */
    method SettleAnalysis(outcome: ServerOutcome)
      modifies this
      ensures file == old(file) && jobDescription == old(jobDescription) && !loading
      ensures match Settle(outcome)
        case Succeeded(data) => result == data && error == old(error)
        case Failed(message) => error == Some(message) && result == old(result)
    {
      match Settle(outcome) {
        case Succeeded(data) =>
          result := data;
        case Failed(message) =>
          error := Some(message);
      }
      loading := false;
    }

    /** `handleAnalyze` as a whole. */
    method HandleAnalyze(outcome: ServerOutcome) returns (request: Option<FormData>)
      modifies this
      ensures request.None? <==> !ReadyToSubmit(old(State()))
      ensures request.None? ==> State() == old(State())
      ensures request.Some? ==>
        && request.value == FormData(old(file).value, old(jobDescription))
        && file == old(file) && jobDescription == old(jobDescription) && !loading
        && match Settle(outcome)
           case Succeeded(data) => result == data && error == None
           case Failed(message) => error == Some(message) && result == JNull
      // a completed submission never leaves both a result and an error
      ensures request.Some? ==> error == None || result == JNull
    {
      request := StartAnalysis();
      if request.Some? {
        SettleAnalysis(outcome);
      }
    }
  }

  // ---------------------------------------------------------------------
  // Render
  // ---------------------------------------------------------------------

  /** A piece of rendered text: fixed text, or an embedded `{value}` (`None` is `undefined`). */
  datatype Fragment = Text(text: string) | Slot(value: Option<Json>)

  /** The fixed text in front of the error message: a red cross and "Error: ". */
  const ErrorPrefix := "\U{274C} Error: "

  /** `<li key={i}>{item}</li>`. */
  datatype ListItem = ListItem(key: nat, content: Json)

  /** The results section: the card, or the falsy `result` itself (React shows `0`, nothing else). */
  datatype ResultSection =
    | ResultCard(scoreBadge: seq<Fragment>, summary: seq<Fragment>, strengths: seq<ListItem>, weaknesses: seq<ListItem>)
    | NoResultCard(shown: Json)

  datatype View = View(
    jobDescriptionValue: string,
    buttonDisabled: bool,
    buttonLabel: string,
    errorPanel: Option<seq<Fragment>>,
    results: ResultSection)

  /** `items.map((x, i) => <li key={i}>{x}</li>)`, numbering keys from `from`. */
  function ListItems(items: seq<Json>, from: nat): (r: seq<ListItem>)
    ensures |r| == |items|
    ensures forall k :: 0 <= k < |r| ==> r[k].key == from + k && r[k].content == items[k]
    decreases |items|
  {
    if items == [] then [] else [ListItem(from, items[0])] + ListItems(items[1..], from + 1)
  }

  /** What a rendered list shows, item by item. */
  function Contents(items: seq<ListItem>): seq<Json> {
    if items == [] then [] else [items[0].content] + Contents(items[1..])
  }

  /** Reading a rendered list back gives the source array, in order. */
  lemma {:induction false} ContentsOfListItems(items: seq<Json>, from: nat)
    ensures Contents(ListItems(items, from)) == items
    decreases |items|
  {
    if items != [] {
      ContentsOfListItems(items[1..], from + 1);
      assert items == [items[0]] + items[1..];
    }
  }

  /** `v.map(...)`: only an array has `map`; on anything else the render throws. */
  function RenderList(v: Option<Json>): Completion<seq<ListItem>> {
    if v.Some? && v.value.JArr? then Normal(ListItems(v.value.items, 0)) else Throws
  }

  /**
   * A value React can render as a child: a plain object cannot be ("Objects
   * are not valid as a React child"), an array renders each of its elements,
   * and every other value renders as text or as nothing.
   */
  predicate IsRenderableChild(v: Json)
    decreases v
  {
    match v
    case JObj(_) => false
    case JArr(items) => forall x | x in items :: IsRenderableChild(x)
    case _ => true
  }

  /** An embedded `{value}`: `undefined` renders nothing. */
  predicate IsRenderableSlot(v: Option<Json>) {
    v.None? || IsRenderableChild(v.value)
  }

  /** What the result card embeds can all be rendered: the score, the summary and every list item. */
  predicate CardChildrenRenderable(result: Json)
    requires IsArrayField(result, "strengths") && IsArrayField(result, "weaknesses")
  {
    && IsRenderableSlot(Field(result, "score"))
    && IsRenderableSlot(Field(result, "matchSummary"))
    && IsRenderableChild(Field(result, "strengths").value)
    && IsRenderableChild(Field(result, "weaknesses").value)
  }

  /** A field is present and holds an array. */
  predicate IsArrayField(result: Json, key: string) {
    Field(result, key).Some? && Field(result, key).value.JArr?
  }

  /**
   * The JSX: a function of the state. It throws when a shown result lacks one
   * of its two lists (`map` of a non-array) or embeds a plain object.
   */
  function Render(s: UiState): (r: Completion<View>)
    ensures r.Throws? <==>
      && Truthy(Some(s.result))
      && !(IsArrayField(s.result, "strengths") && IsArrayField(s.result, "weaknesses") && CardChildrenRenderable(s.result))
    ensures r.Normal? ==> r.value.jobDescriptionValue == s.jobDescription
    // the button is disabled exactly while loading
    ensures r.Normal? ==> r.value.buttonDisabled == s.loading
    ensures r.Normal? ==> r.value.buttonLabel == if s.loading then "Analyzing..." else "Analyze Resume"
    // the error panel shows exactly a non-empty error, verbatim
    ensures r.Normal? ==> (r.value.errorPanel.Some? <==> s.error.Some? && s.error.value != "")
    ensures r.Normal? && r.value.errorPanel.Some? ==> r.value.errorPanel.value == [Text(ErrorPrefix), Slot(Some(JStr(s.error.value)))]
    // the result card shows exactly a truthy result
    ensures r.Normal? ==> (r.value.results.ResultCard? <==> Truthy(Some(s.result)))
    ensures r.Normal? && r.value.results.ResultCard? ==>
      var card := r.value.results;
      && card.scoreBadge == [Text("Match Score: "), Slot(Field(s.result, "score")), Text("%")]
      && card.summary == [Text("Summary: "), Slot(Field(s.result, "matchSummary"))]
      && Contents(card.strengths) == Field(s.result, "strengths").value.items
      && Contents(card.weaknesses) == Field(s.result, "weaknesses").value.items
  {
    var errorPanel :=
      if s.error.Some? && s.error.value != "" then Some([Text(ErrorPrefix), Slot(Some(JStr(s.error.value)))]) else None;
    var buttonLabel := if s.loading then "Analyzing..." else "Analyze Resume";
    if !Truthy(Some(s.result)) then
      Normal(View(s.jobDescription, s.loading, buttonLabel, errorPanel, NoResultCard(s.result)))
    else
      match (RenderList(Field(s.result, "strengths")), RenderList(Field(s.result, "weaknesses")))
      case (Normal(strengths), Normal(weaknesses)) =>
        if !CardChildrenRenderable(s.result) then Throws else
        ContentsOfListItems(Field(s.result, "strengths").value.items, 0);
        ContentsOfListItems(Field(s.result, "weaknesses").value.items, 0);
        var card := ResultCard(
          [Text("Match Score: "), Slot(Field(s.result, "score")), Text("%")],
          [Text("Summary: "), Slot(Field(s.result, "matchSummary"))],
          strengths,
          weaknesses);
        Normal(View(s.jobDescription, s.loading, buttonLabel, errorPanel, card))
      case _ => Throws
  }
}
