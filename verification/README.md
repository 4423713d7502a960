# Resume Analyzer — a Dafny model of its request path

The Resume Analyzer takes a résumé (PDF) and a job description and returns
an ATS-style verdict: a match score, a summary, missing keywords,
strengths and weaknesses. It has three parts:

- **The analyze endpoint** (`analyzeResume`). It rejects a request that has
  no file or an empty job description with 400. It then extracts the PDF
  text and puts both texts into a fixed prompt for the generative model.
  It strips markdown code fences from the model's answer, trims it, parses
  it as JSON, and relays the parsed value. Every failure becomes one fixed
  500 reply.
- **The `ResumeAnalyzer` component**. It holds five pieces of state. Its
  submit handler guards, clears, sends one request, and records either a
  result or an error before it stops loading. Its render is a function of
  that state.
- **The `listModels` script**. It lists the model IDs an API key can use:
  models that support `generateContent` and whose name says flash or pro.

The model is split into these modules:

- `Wrappers`: `Option`.
- `JsStrings`: the JavaScript string operations the code uses.
  - `includes` becomes `Contains`.
  - A global literal `replace` becomes `RemoveAll`.
  - A first-occurrence `replace` becomes `RemoveFirst`.
  - `trim` becomes `Trim`.
- `JsValues`: parsed JSON values and JavaScript truthiness.
  - Property reads throw on `null`/`undefined`.
  - `String(v)` is modelled as `new Error(v)` applies it.
- `ResumeController`: the endpoint.
  - The PDF extractor, the model call and `JSON.parse` are function
    parameters that either return a value or fail.
  - The handler returns the reply it writes into `res`.
  - It also returns the collaborator calls it made, in order.
- `ResumeAnalyzerUi`: the component as a class with the five state fields,
  and `Render` over its state.
  - `handleAnalyze` awaits twice: `fetch(...)` and then `response.json()`.
  - The class splits it at the first await into `StartAnalysis` and
    `SettleAnalysis`; the second await is folded into the outcome the
    settle step receives (`BodyUnreadable` when it throws). Nothing between
    the two awaits touches the state.
  - `HandleAnalyze` runs the two steps in turn.
- `CheckModels`: the script.
  - The fetch is a parameter: the parsed payload, or `None` if it threw.
  - The `forEach` is the loop of `PrintModels`, proved against `Printed`.
- `EndToEnd`: the component and the endpoint together.

Two facts about the code shape what the model states:

- The endpoint's error replies carry only `error`, while the client reads
  `details` from them. So every endpoint error, 400 or 500, shows in the
  client as "Analysis failed" (`EndToEnd.ClientReadsEndpointReply`).
- The client maps over `strengths` and `weaknesses` without checking that
  they are arrays, so `Render` throws when a shown result lacks either list.
  It also throws when the card would embed a plain object, as React refuses
  those as children.

There is no credential check and no health route in the code.

## Model

| member | source | states |
|---|---|---|
| `JsStrings.ContainsIffOccurs` | Backend/check_models.js:40 | `includes` holds exactly when the needle occurs at some index |
| `JsStrings.Trim` | Backend/controllers/resumeController.js:49 | `trim` cuts exactly the leading whitespace run at the front and only whitespace at the back; the result neither starts nor ends with JavaScript whitespace |
| `JsStrings.TrimIsSlice` | Backend/controllers/resumeController.js:49 | `trim` only cuts whitespace: its result is a contiguous slice of its input with nothing but whitespace before and after it |
| `JsStrings.TrimIdempotent` | Backend/controllers/resumeController.js:49 | trimming twice is trimming once |
| `JsStrings.TrimCharacterized` | Backend/controllers/resumeController.js:49 | any slice with only whitespace around it and none at its own ends is the trim, so `Trim` is the one such cut |
| `JsStrings.RemoveAllAbsent` | Backend/controllers/resumeController.js:49 | a global replace of an absent pattern leaves the text unchanged |
| `JsStrings.RemoveAllPlainPrefix` | Backend/controllers/resumeController.js:49 | text free of the pattern's first character passes through a global replace untouched |
| `JsStrings.IndexOf` | Backend/check_models.js:41 | finds the first occurrence of the pattern: it occurs there and at no earlier index; `None` means it does not occur |
| `JsStrings.RemoveFirstCutsFirstOccurrence` | Backend/check_models.js:41 | `replace` with a string pattern removes exactly the first occurrence and keeps the rest; no occurrence means no change |
| `JsValues.Get` | Frontend/src/components/ResumeAnalyzer.jsx:38-39 | a property read throws exactly on `undefined`/`null`; an object yields its own field, or `undefined` when it has none; any other value yields `undefined` |
| `JsValues.Includes` | Backend/check_models.js:34-40 | `includes` answers substring search on a string and element search on an array, in both directions, and throws on anything else |
| `JsValues.ToJsString` | Frontend/src/components/ResumeAnalyzer.jsx:39 | `String(v)` as `new Error(v)` applies it: a string is kept, a boolean is "true" or "false", a number is its sign and canonical decimal digits, `null` is "null", an empty array "", an object "[object Object]" |
| `JsValues.ArrayToStringSplits` | Frontend/src/components/ResumeAnalyzer.jsx:39 | an array of comma-free strings prints as its elements joined by commas: splitting the text at the commas gives them back |
| `JsValues.NatToDecimalValue` | Frontend/src/components/ResumeAnalyzer.jsx:39 | the decimal digits of a number read back as that number |
| `JsValues.NumberToStringValue` | Frontend/src/components/ResumeAnalyzer.jsx:39 | the digits of `String(n)` after its sign read back as the magnitude of `n` |
| `JsValues.SplitJoin` | Frontend/src/components/ResumeAnalyzer.jsx:39 | the comma join used for arrays loses nothing: splitting it at the separator gives the elements back when none holds the separator |
| `ResumeController.PromptEmbedsInputs` | Backend/controllers/resumeController.js:21-38 | the prompt is the fixed head, the résumé text verbatim, the fixed middle, the job description verbatim, and the fixed tail, in that order |
| `ResumeController.PromptDeterminesInputs` | Backend/controllers/resumeController.js:21-38 | given the résumé's length, the prompt determines both embedded texts |
| `ResumeController.RemoveAllFencesLeavesNone` | Backend/controllers/resumeController.js:49 | the left-to-right removal of every ```` ``` ```` never glues remnants into a new one |
| `ResumeController.StripFencesLeavesNoFence` | Backend/controllers/resumeController.js:49 | after the replace/replace/trim chain no triple backtick is left |
| `ResumeController.StripFencesIdempotent` | Backend/controllers/resumeController.js:49 | applying the chain twice gives the same text as applying it once |
| `ResumeController.StripFencesOfPlain` | Backend/controllers/resumeController.js:49 | text without backticks is only trimmed |
| `ResumeController.StripFencesUnwraps` | Backend/controllers/resumeController.js:47-49 | ```` ```json B ``` ```` with no backtick in B becomes trim(B), the same as bare B; a bare B without surrounding whitespace is unchanged |
| `ResumeController.AnalyzeResume` | Backend/controllers/resumeController.js:9-59 | 400 with the fixed message and no collaborator call exactly when the file or job description is missing; otherwise extract, then prompt, then parse the fence-stripped answer, in order; 200 with exactly the parsed value when all succeed; otherwise the fixed 500 body and nothing else |
| `ResumeAnalyzerUi.FailureMessageFor` | Frontend/src/components/ResumeAnalyzer.jsx:38-39 | any truthy `details` becomes the message through `String(details)` (a non-empty string verbatim); an absent or falsy `details` gives "Analysis failed"; a `null` body throws on the read |
| `ResumeAnalyzerUi.Settle` | Frontend/src/components/ResumeAnalyzer.jsx:29-47 | success exactly for an ok response, whose body is the result unchanged; a non-ok response fails with the `details`-or-fallback message; a thrown fetch or body read fails with its message |
| `ResumeAnalyzerUi.ResumeAnalyzer.constructor` | Frontend/src/components/ResumeAnalyzer.jsx:5-9 | starts with no file, an empty description, no result, not loading, no error |
| `ResumeAnalyzerUi.ResumeAnalyzer.HandleFileChange` | Frontend/src/components/ResumeAnalyzer.jsx:11-13 | keeps the first chosen file (none if the list is empty) and changes nothing else |
| `ResumeAnalyzerUi.ResumeAnalyzer.HandleJobDescriptionChange` | Frontend/src/components/ResumeAnalyzer.jsx:66 | the description becomes the input's value and nothing else changes |
| `ResumeAnalyzerUi.ResumeAnalyzer.StartAnalysis` | Frontend/src/components/ResumeAnalyzer.jsx:15-27 | without a file or description: no request and no state change; otherwise loading is set and error and result are cleared before the form (file, description) is sent |
| `ResumeAnalyzerUi.ResumeAnalyzer.SettleAnalysis` | Frontend/src/components/ResumeAnalyzer.jsx:29-47 | success sets only the result, failure sets only the error, and loading ends either way |
| `ResumeAnalyzerUi.ResumeAnalyzer.HandleAnalyze` | Frontend/src/components/ResumeAnalyzer.jsx:15-48 | a request is sent exactly when the guard passes; a completed submission leaves loading false and sets either the result or the error, never both |
| `ResumeAnalyzerUi.ListItems` | Frontend/src/components/ResumeAnalyzer.jsx:93-99 | one list item per array element, same element, same order, keyed by index |
| `ResumeAnalyzerUi.ContentsOfListItems` | Frontend/src/components/ResumeAnalyzer.jsx:93-99 | reading a rendered list back gives the source array |
| `ResumeAnalyzerUi.Render` | Frontend/src/components/ResumeAnalyzer.jsx:50-106 | button disabled exactly while loading; error panel exactly for a non-empty error, shown verbatim; result card exactly for a truthy result, with the score unchanged before "%"; throws exactly when a shown result lacks the strengths or weaknesses array, or embeds a plain object as its score, its summary or a list item |
| `CheckModels.FilterGenerateContent` | Backend/check_models.js:34-36 | keeps exactly the listed models that support `generateContent`; throws if the test throws on any model |
| `CheckModels.FilterGenerateContentAppend` | Backend/check_models.js:34-36 | filtering a concatenation concatenates the filtered parts, so kept models stay in order |
| `CheckModels.PrintedAppend` | Backend/check_models.js:38-43 | the IDs printed for a concatenation are those of the first part followed by those of the second, unless the first throws |
| `CheckModels.PrintedIdsAreSelected` | Backend/check_models.js:38-43 | every printed ID comes from a model whose name is a string containing "flash" or "pro", with its first "models/" removed |
| `CheckModels.SelectedIdsArePrinted` | Backend/check_models.js:38-43 | conversely, every listed model whose name is a string containing "flash" or "pro" has its ID printed when the `forEach` runs to the end |
| `CheckModels.ListedModelsQualify` | Backend/check_models.js:34-43 | every printed ID comes from a listed model that supports `generateContent` and is a flash or pro model |
| `CheckModels.PrintModels` | Backend/check_models.js:38-43 | the `forEach` prints, in list order, the ID of each flash or pro model and stops at the first exception: its output is exactly `Printed` of the list |
| `CheckModels.ListModels` | Backend/check_models.js:5-49 | no key: returns before fetching; a failed fetch or `null` payload ends as a caught failure with nothing printed; an error payload ends with its `message` and nothing printed; otherwise, when `models` is an array the filter accepts, prints exactly `Printed` of the filtered list and ends listed unless the forEach threw, and else ends as a caught failure with nothing printed |
| `EndToEnd.ClientReadsEndpointReply` | Frontend/src/components/ResumeAnalyzer.jsx:38-44 | the endpoint's 200 body becomes the client's result unchanged; its 400 and 500 bodies have no `details`, so the client shows "Analysis failed" |
| `EndToEnd.InFlightView` | Frontend/src/components/ResumeAnalyzer.jsx:71-77 | while a request is in flight the button is disabled and reads "Analyzing...", and no error or result is shown |
| `EndToEnd.RenderShowsAnalysisUnchanged` | Frontend/src/components/ResumeAnalyzer.jsx:83-103 | a well-formed analysis renders and reads back unchanged: score with "%", summary, strengths and weaknesses item for item |

## Left out

- PDF text extraction (`pdf-parse`), the Gemini client and `JSON.parse` are libraries, so they are function parameters that return a value or fail. Their internals are not modelled.
- The model identifier `gemini-1.5-flash` and the key passed to the client are configuration. They are not modelled.
- `fetch`, `alert` and `console` output are I/O. Only their outcomes are modelled: the server outcome, the guard result, the printed IDs and how the script ended.
- The exact text of JavaScript TypeErrors is engine-specific. `NullDetailsMessage` uses V8's wording, and thrown property reads elsewhere are `Throws` with no message.
- Express, multer and CORS wiring (`Backend/index.js`, `Backend/routes/resumeRoutes.js`), inline styles, the Tailwind configuration and `Backend/test-pdf.js` are plumbing or styling. They are not part of this model.
- React's batching of `setState` and re-renders between state updates are not modelled. The updates are sequential steps, and a render is a function of one state.
- JSON numbers are integers here. Fractions, exponents and `NaN` are not modelled.
- JsValues.ToJsString: prints every integer in plain decimal digits. JavaScript switches to exponent form from 10^21 in magnitude, and integers above 2^53 in magnitude are not exact doubles; neither is modelled, as numbers here are unbounded integers.
- A parsed object is a map of its own fields. Inherited `Object.prototype` members are not modelled. None of the field names the code reads is one of them.
- A `jobDescription` field sent twice, which multer turns into an array, is not modelled: the field is a string or absent.
- A failure while `res.json` serialises the reply is not modelled.
- The component does not render `missingKeywords`, so neither does `Render`.
- Dafny strings are sequences of Unicode scalar values, not UTF-16 code units, so lone surrogates and code-unit indexing are not modelled.
