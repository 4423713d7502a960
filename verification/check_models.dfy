/**
 * The `listModels` script: with an API key, fetch the model list, stop on an
 * error payload, keep the models that support `generateContent`, and print the
 * ID of each flash or pro model (its name with the first "models/" removed).
 * Every exception is caught and logged; the script never rethrows.
 *
 * The fetch and `response.json()` are one parameter: the parsed payload, or
 * `None` when either of them threw. Console output is reported as the list of
 * printed IDs and how the script ended.
 */
module CheckModels {
  import opened Wrappers
  import opened JsStrings
  import opened JsValues

  const GenerateContent := "generateContent"
  const ModelsPrefix := "models/"

  /** How the script ended; in every case the error, if any, was caught and logged. */
  datatype Ending =
    | KeyMissing                         // "API Key missing" and return, before any fetch
    | ApiError(message: Option<Json>)    // the payload carried `error`; its `message` is logged
    | Listed                             // every selected model was printed
    | ScriptFailed                       // something threw; the catch logged it

  /** `fetched`: whether the list request was made; `ids`: the printed model IDs, in order. */
  datatype Report = Report(fetched: bool, ids: seq<string>, ending: Ending)

  /** `m.supportedGenerationMethods.includes("generateContent")` */
  function SupportsGenerateContent(m: Json): Completion<bool> {
    match Get(Some(m), "supportedGenerationMethods")
    case Throws => Throws
    case Normal(methods) => Includes(methods, GenerateContent)
  }

  /**
   * `models.filter(SupportsGenerateContent)`: the supporting models in their
   * original order; throws if the test throws on any model.
   */
  function FilterGenerateContent(models: seq<Json>): (r: Completion<seq<Json>>)
    ensures r.Normal? <==> forall k :: 0 <= k < |models| ==> SupportsGenerateContent(models[k]).Normal?
    ensures r.Normal? ==> forall m :: m in r.value <==> m in models && SupportsGenerateContent(m) == Normal(true)
    decreases |models|
  {
    if models == [] then Normal([])
    else
      match (SupportsGenerateContent(models[0]), FilterGenerateContent(models[1..]))
      case (Normal(keep), Normal(rest)) =>
        assert forall m :: m in models <==> m == models[0] || m in models[1..];
        Normal(if keep then [models[0]] + rest else rest)
      case (Throws, _) => Throws
      case (_, Throws) =>
        assert forall k :: 1 <= k < |models| ==> models[k] == models[1..][k - 1];
        Throws
  }

  /** Filtering a concatenation filters each part: the kept models stay in order. */
  lemma {:induction false} FilterGenerateContentAppend(a: seq<Json>, b: seq<Json>)
    ensures FilterGenerateContent(a + b).Normal? <==> FilterGenerateContent(a).Normal? && FilterGenerateContent(b).Normal?
    ensures FilterGenerateContent(a + b).Normal? ==>
      FilterGenerateContent(a + b).value == FilterGenerateContent(a).value + FilterGenerateContent(b).value
    decreases |a|
  {
    if a == [] {
      assert a + b == b;
    } else {
      FilterGenerateContentAppend(a[1..], b);
      assert (a + b)[0] == a[0];
      assert (a + b)[1..] == a[1..] + b;
      if FilterGenerateContent(a + b).Normal? {
        var x := FilterGenerateContent(a[1..]).value;
        var y := FilterGenerateContent(b).value;
        assert [a[0]] + (x + y) == ([a[0]] + x) + y;
      }
    }
  }

  /** `m.name.includes("flash") || m.name.includes("pro")`, evaluated left to right. */
  function IsFlashOrPro(m: Json): Completion<bool> {
    match Get(Some(m), "name")
    case Throws => Throws
    case Normal(name) =>
      match Includes(name, "flash")
      case Throws => Throws
      case Normal(true) => Normal(true)
      case Normal(false) => Includes(name, "pro")
  }

  /** `m.name.replace("models/", "")`: only a string has `replace`. */
  function ModelId(m: Json): Completion<string> {
    match Get(Some(m), "name")
    case Normal(Some(JStr(name))) => Normal(RemoveFirst(name, ModelsPrefix))
    case _ => Throws
  }

  /** One turn of the `forEach`: the ID it prints, if any, or the exception it throws. */
  function PrintFor(m: Json): Completion<Option<string>> {
    match IsFlashOrPro(m)
    case Throws => Throws
    case Normal(false) => Normal(None)
    case Normal(true) =>
      match ModelId(m)
      case Throws => Throws
      case Normal(id) => Normal(Some(id))
  }

  /** What the `forEach` prints before it finishes or throws. */
  datatype Listing = Listing(ids: seq<string>, failed: bool)

  /** The output of `models.forEach(PrintFor)`: the IDs printed in order, up to the first exception. */
  function Printed(models: seq<Json>): Listing
    decreases |models|
  {
    if models == [] then Listing([], false)
    else
      match PrintFor(models[0])
      case Throws => Listing([], true)
      case Normal(None) => Printed(models[1..])
      case Normal(Some(id)) =>
        var rest := Printed(models[1..]);
        Listing([id] + rest.ids, rest.failed)
  }

  /**
   * Printing a concatenation prints the first part, then (if it did not
   * throw) the second: output keeps the order of the input list.
   */
  lemma {:induction false} PrintedAppend(a: seq<Json>, b: seq<Json>)
    ensures Printed(a + b) ==
      if Printed(a).failed then Printed(a)
      else Listing(Printed(a).ids + Printed(b).ids, Printed(b).failed)
    decreases |a|
  {
    if a == [] {
      assert a + b == b;
    } else {
      PrintedAppend(a[1..], b);
      assert (a + b)[0] == a[0];
      assert (a + b)[1..] == a[1..] + b;
      match PrintFor(a[0])
      case Throws =>
      case Normal(None) =>
      case Normal(Some(id)) =>
        assert [id] + (Printed(a[1..]).ids + Printed(b).ids) == ([id] + Printed(a[1..]).ids) + Printed(b).ids;
    }
  }

  /** Once a prefix of the list has thrown, the whole `forEach` output is that prefix's. */
  lemma PrintedStopsAt(models: seq<Json>, k: nat)
    requires k <= |models| && Printed(models[..k]).failed
    ensures Printed(models) == Printed(models[..k])
  {
    PrintedAppend(models[..k], models[k..]);
    assert models[..k] + models[k..] == models;
  }

  /** A model is printed as `id`: its name is a string naming a flash or pro model, and `id` is that name with the first "models/" cut. */
  predicate PrintedAs(m: Json, id: string) {
    && m.JObj? && "name" in m.fields && m.fields["name"].JStr?
    && (Contains(m.fields["name"].s, "flash") || Contains(m.fields["name"].s, "pro"))
    && id == RemoveFirst(m.fields["name"].s, ModelsPrefix)
  }

  /**
   * Every printed ID comes from a listed model whose name is a string
   * containing "flash" or "pro", and is that name with its first "models/" removed.
   */
  lemma {:induction false} PrintedIdsAreSelected(models: seq<Json>)
    ensures forall id :: id in Printed(models).ids ==> exists m :: m in models && PrintedAs(m, id)
    decreases |models|
  {
    if models != [] {
      PrintedIdsAreSelected(models[1..]);
      var m := models[0];
      assert forall x :: x in models[1..] ==> x in models;
      match PrintFor(m)
      case Throws =>
      case Normal(None) =>
      case Normal(Some(id)) =>
        assert m.JObj? && "name" in m.fields && m.fields["name"].JStr?;
        var name := m.fields["name"].s;
        assert IsFlashOrPro(m) == Normal(true);
        assert Contains(name, "flash") || Contains(name, "pro");
        assert PrintedAs(m, id);
        assert Printed(models).ids == [id] + Printed(models[1..]).ids;
    }
  }

  /**
   * Conversely, a listed flash or pro model is printed, as `id`, whenever
   * the `forEach` runs to the end.
   */
  lemma {:induction false} SelectedIdsArePrinted(models: seq<Json>, m: Json, id: string)
    requires m in models && PrintedAs(m, id)
    requires !Printed(models).failed
    ensures id in Printed(models).ids
    decreases |models|
  {
    if models[0] == m {
      var name := m.fields["name"].s;
      assert IsFlashOrPro(m) == Normal(true) by {
        if !Contains(name, "flash") {
          assert Includes(Some(JStr(name)), "pro") == Normal(true);
        }
      }
      assert PrintFor(m) == Normal(Some(id));
    } else {
      assert m in models[1..];
      SelectedIdsArePrinted(models[1..], m, id);
    }
  }

  /**
   * The whole selection: every ID printed after filtering comes from a model
   * of the list that supports `generateContent` and is a flash or pro model.
   */
  lemma ListedModelsQualify(models: seq<Json>)
    requires FilterGenerateContent(models).Normal?
    ensures forall id :: id in Printed(FilterGenerateContent(models).value).ids ==>
      exists m :: m in models && SupportsGenerateContent(m) == Normal(true) && PrintedAs(m, id)
  {
    var valid := FilterGenerateContent(models).value;
    PrintedIdsAreSelected(valid);
    forall id | id in Printed(valid).ids
      ensures exists m :: m in models && SupportsGenerateContent(m) == Normal(true) && PrintedAs(m, id)
    {
      var m :| m in valid && PrintedAs(m, id);
      assert m in models && SupportsGenerateContent(m) == Normal(true);
    }
  }

  /** `listModels`. */
  method ListModels(apiKey: Option<string>, payload: Option<Json>) returns (report: Report)
    // no key: return before any fetch
    ensures apiKey.None? || apiKey.value == "" ==> report == Report(false, [], KeyMissing)
    ensures apiKey.Some? && apiKey.value != "" ==> report.fetched
    // with a key: a failed fetch or a `null` payload is caught before anything is printed
    ensures apiKey.Some? && apiKey.value != "" && (payload.None? || payload == Some(JNull)) ==>
      report == Report(true, [], ScriptFailed)
    // an error payload: its `message` is logged and nothing is listed
    ensures apiKey.Some? && apiKey.value != "" && payload.Some? && payload.value != JNull
            && Truthy(Field(payload.value, "error")) ==>
      report == Report(true, [], ApiError(Field(Field(payload.value, "error").value, "message")))
    // a payload without `error`: `models` must be an array the filter accepts,
    // and then the IDs of the forEach are printed, up to its first exception
    ensures apiKey.Some? && apiKey.value != "" && payload.Some? && payload.value != JNull
            && !Truthy(Field(payload.value, "error")) ==>
      var models := Field(payload.value, "models");
      if models.Some? && models.value.JArr? && FilterGenerateContent(models.value.items).Normal? then
        var listing := Printed(FilterGenerateContent(models.value.items).value);
        report == Report(true, listing.ids, if listing.failed then ScriptFailed else Listed)
      else
        report == Report(true, [], ScriptFailed)
    // whatever was listed came from that path
    ensures report.ending.Listed? || report.ids != [] ==>
      && payload.Some? && payload.value.JObj? && !Truthy(Field(payload.value, "error"))
      && Field(payload.value, "models").Some? && Field(payload.value, "models").value.JArr?
      && var models := Field(payload.value, "models").value.items;
         FilterGenerateContent(models).Normal?
         && report.ids == Printed(FilterGenerateContent(models).value).ids
         && (report.ending.Listed? <==> !Printed(FilterGenerateContent(models).value).failed)
  {
    if apiKey.None? || apiKey.value == "" {
      // console.log("API Key missing")
      return Report(false, [], KeyMissing);
    }
    if payload.None? {
      // fetch or response.json() threw
      return Report(true, [], ScriptFailed);
    }
    var data := payload.value;
    var dataError := Get(payload, "error");
    if dataError.Throws? {
      return Report(true, [], ScriptFailed);
    }
    if Truthy(dataError.value) {
      var message := Get(dataError.value, "message");
      return Report(true, [], ApiError(if message.Normal? then message.value else None));
    }
    var models := Get(payload, "models");
    if models.Throws? || models.value.None? || !models.value.value.JArr? {
      // `data.models.filter` is not a function, or `undefined` has no properties
      return Report(true, [], ScriptFailed);
    }
    var validModels := FilterGenerateContent(models.value.value.items);
    if validModels.Throws? {
      return Report(true, [], ScriptFailed);
    }
    var listing := PrintModels(validModels.value);
    report := Report(true, listing.ids, if listing.failed then ScriptFailed else Listed);
  }

  /** `validModels.forEach(...)`: prints the ID of each flash or pro model in turn, stopping at the first exception. */
  method PrintModels(valid: seq<Json>) returns (listing: Listing)
    ensures listing == Printed(valid)
  {
    var ids: seq<string> := [];
    var i := 0;
    while i < |valid|
      invariant 0 <= i <= |valid|
      invariant Printed(valid[..i]) == Listing(ids, false)
    {
      var m := valid[i];
      PrintedAppend(valid[..i], [m]);
      assert valid[..i + 1] == valid[..i] + [m];
      var keep := IsFlashOrPro(m);
      if keep.Throws? {
        PrintedStopsAt(valid, i + 1);
        return Listing(ids, true);
      }
      if keep.value {
        var id := ModelId(m);
        if id.Throws? {
          PrintedStopsAt(valid, i + 1);
          return Listing(ids, true);
        }
        // console.log(`MODEL ID: ${id}`)
        ids := ids + [id.value];
      }
      i := i + 1;
    }
    assert valid[..i] == valid;
    listing := Listing(ids, false);
  }
}
