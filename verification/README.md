# ConceptViz session and export, in Dafny

ConceptViz is a single-page front end: the user names a concept, one call to a
generative model returns a self-contained HTML visualization with a title and
an explanation, and the page renders it in a sandboxed frame, shows its
source, or downloads it. This project models the part of `App.tsx` with
behaviour of its own:

- **The session state machine** (`app.dfy`, module `App`). The seven state
  cells of the component (`concept`, `isLoading`, `error`, `data`, `viewMode`,
  `hasSearched`, `showExplanation`) are the fields of the class
  `App.Session`. `error` and `data` are `Option`s. Every event handler is a
  method whose contract says which cells it sets and that all other cells
  keep their values. The asynchronous `handleGenerate` is split at its
  `await` into `BeginGenerate` and `CompleteSuccess` / `CompleteFailure`.
  The generator is an input to these methods: either the artifact it
  resolved with or the message of the error it threw. A ghost counter
  `inFlight` counts calls that have started and not settled; only those can
  complete. The screens the component renders (landing page, loading
  overlay, result, explanation panel, error box, header toolbar) are
  predicates over the fields, and the methods state how they change.
- **The export file name** (`export_name.dfy`, module `ExportName`):
  `title.replace(/\s+/g, '_').toLowerCase() + '.html'` as pure functions,
  with lemmas that characterise the collapsing of white-space runs.
- **JavaScript white space and `trim`** (`text.dfy`, module `Text`). The
  submit guard `!query.trim()` and the regular expression class `\s` use the
  same set of code points, so one predicate `Text.IsSpace` serves both.
- **Event sequences** (`scenarios.dfy`, module `Scenarios`): fresh sessions
  driven through the orders in which the handlers can fire, and what the
  screen then shows.

The record `VisualizationResponse` and the enumeration `ViewMode` from
`types.ts` are datatypes in `types.dfy`.

Some of what the code does is not what a reader of the interface would
expect. The model follows the code:

- One might expect at most one generation call at a time. In the code the
  header search form stays usable while the loading overlay is up, because
  the overlay sits under the header. Two calls can therefore be out at once.
  The last call to resolve successfully decides `data`; a failure that
  settles last leaves `data` as it was and shows the error box over it
  (`Scenarios.OverlappingCallsFailureLast`). The overlay also disappears as
  soon as either call settles (`Scenarios.OverlappingCalls`).
- One might expect the export name to have no leading or trailing separator.
  The code does not trim, so `"  A  B "` gives `_a_b_.html`
  (`ExportName.PaddedTitleName`, `ExportName.FileStemEnds`).
- The view and the explanation are reset when a call starts, not when it
  succeeds (`App.Session.BeginGenerate`).
- The logo does not return the whole session to idle. It clears only
  `hasSearched`, `data` and `concept`. It leaves the error and the overlay as
  they are and does not cancel a call in flight; an artifact that arrives
  afterwards is held, but the header with the download button stays
  collapsed (`App.Session.ResetToLanding`, `Scenarios.ResetWhileLoading`).
- The client neither validates the response nor fails on a missing
  credential, so an artifact is any three strings, and there is no
  configuration-error path.

## Model

| member | source | states |
|---|---|---|
| `Text.TrimStartSpec` | App.tsx:45 | the start of `trim` removes exactly the leading white-space run: the result is a suffix that does not start with white space, and everything cut off is white space |
| `Text.TrimEndSpec` | App.tsx:45 | the end of `trim` removes exactly the trailing white-space run: the result is a prefix that does not end with white space, and everything cut off is white space |
| `Text.TrimIsInfix` | App.tsx:45 | `trim` returns an infix of the query, surrounded only by white space, that neither starts nor ends with white space |
| `Text.TrimEmptyIffBlank` | App.tsx:45 | the guard `!query.trim()` holds exactly when every character of the query is white space |
| `ExportName.LowerChar` | App.tsx:71 | an upper-case ASCII letter maps to the lower-case letter at the same alphabet position; every other character is kept; the result is never upper case |
| `ExportName.Lower` | App.tsx:71 | lower-casing keeps the length and maps every character by `LowerChar`, so each upper-case ASCII letter becomes its own lower-case letter and every other character is kept; the result has no upper-case ASCII letter and white space at the same positions |
| `ExportName.CollapseFrom` | App.tsx:71 | the left-to-right scan that replaces white space never produces white space and never lengthens the title |
| `ExportName.CollapseSpaces` | App.tsx:71 | the collapsed title has no white space, is no longer than the title, and is empty only for the empty title |
| `ExportName.FileName` | App.tsx:71 | the download name ends in `.html`, contains no white space and no upper-case ASCII letter |
| `ExportName.CollapseFromAppend` | App.tsx:71 | scanning a concatenation equals scanning the first part, then the second part resumed in the run state the first part left |
| `ExportName.CollapseKeepsSpaceFree` | App.tsx:71 | a title without white space is not changed by the replacement |
| `ExportName.CollapseInsideRun` | App.tsx:71 | further white space inside a run that already produced its `_` produces nothing |
| `ExportName.CollapseBlankRun` | App.tsx:71 | a non-empty run made only of white space becomes exactly one `_` |
| `ExportName.CollapseAppend` | App.tsx:71 | the replacement distributes over a concatenation that does not join two white-space runs |
| `ExportName.CollapseMaximalRun` | App.tsx:71 | a maximal white-space run between two parts becomes exactly one `_`, and the parts are replaced independently |
| `ExportName.CollapseLast` | App.tsx:71 | the last character of the replaced title is `_` when the title ends in white space, and the title's own last character otherwise |
| `ExportName.FileStemEnds` | App.tsx:71 | there is no trimming: leading or trailing white space in the title gives a leading or trailing `_`, and a non-blank end keeps its lower-cased character |
| `ExportName.FileStemIdempotent` | App.tsx:71 | deriving the stem from a stem changes nothing |
| `ExportName.LowerAppend` | App.tsx:71 | lower-casing distributes over concatenation |
| `ExportName.TwoWordFileName` | App.tsx:71 | two space-free words separated by one space (e.g. "Fourier Series") give the lower-cased words joined by `_`, followed by `.html` |
| `ExportName.PaddedTitleName` | App.tsx:71 | the padded title `"  A  B "` gives `_a_b_.html` |
| `Text.IsSpace` | App.tsx:71 | the white space of `\s` (and of `trim`, App.tsx:45): among ASCII characters exactly space and TAB to CR; never the underscore |
| `Text.TrimStart` | App.tsx:45 | the start of `trim` never lengthens the query; what it removes is stated by `Text.TrimStartSpec` |
| `Text.TrimEnd` | App.tsx:45 | the end of `trim` never lengthens the query; what it removes is stated by `Text.TrimEndSpec` |
| `Text.Trim` | App.tsx:45 | `trim` never lengthens the query; `Text.TrimIsInfix` and `Text.TrimEmptyIffBlank` state what it keeps |
| `ExportName.FileStem` | App.tsx:71 | `replace(/\s+/g, '_').toLowerCase()` leaves no white space and no upper-case ASCII letter, never lengthens the title, and is empty only for the empty title |
| `App.Session.LandingVisible` | App.tsx:125 | the landing page shows exactly while no search has been made |
| `App.Session.LoadingVisible` | App.tsx:189 | the loading overlay shows exactly while `isLoading` is set |
| `App.Session.ResultVisible` | App.tsx:208 | the result area shows after a search, when not loading and an artifact is held |
| `App.Session.ExplanationPanelVisible` | App.tsx:226 | the explanation panel shows over the result only in the rendering view |
| `App.Session.ExplanationTextVisible` | App.tsx:248 | the explanation text shows inside the panel only while `showExplanation` is set |
| `App.Session.ErrorVisible` | App.tsx:265 | the error box shows while a non-empty error is recorded |
| `App.Session.ToolbarVisible` | App.tsx:84-117 | the Visual / Code switch and the download button are usable only when an artifact is held and the header is expanded, that is, after a search |
| `App.ScreenLayout` | App.tsx:84-265 | the landing page and the result never show together, nor the overlay and the result; the explanation text implies the panel, the panel implies the result; the toolbar is never on the landing page |
| `App.RecordedErrorShown` | App.tsx:265-269 | in a valid session the error box shows exactly when an error is recorded |
| `App.ChosenQuery` | App.tsx:43 | the query is a non-empty suggestion when one is given, and the search-field text otherwise |
| `App.ErrorText` | App.tsx:59 | the recorded error is the thrown message when that is non-empty, otherwise the fixed fallback text; it is never empty |
| `App.Session.constructor` | App.tsx:33-39 | the initial cell values: empty concept, not loading, no error, no data, rendering view, landing page, explanation open |
| `App.Session.EditConcept` | App.tsx:98 | typing sets only `concept` |
| `App.Session.BeginGenerate` | App.tsx:41-53 | a blank chosen query changes nothing and starts no call; otherwise it sets the query, the overlay, clears the error, leaves the landing page, selects the rendering, opens the explanation, starts one call and keeps `data`, so the toolbar shows exactly when an artifact was already held |
| `App.Session.CompleteSuccess` | App.tsx:55-62 | a resolved call stores the artifact and clears the overlay; every other cell is kept, so the error from an earlier failure is not cleared here; the result and the toolbar show exactly when the landing page was left |
| `App.Session.CompleteFailure` | App.tsx:58-61 | a failed call records the message or the fallback and clears the overlay; the previous artifact stays, so it is still rendered under the error box |
| `App.Session.ResetToLanding` | App.tsx:87 | the logo clears `hasSearched`, `data` and `concept` only; the error, the overlay, the view, the explanation flag and any call in flight are untouched |
| `App.Session.ShowVisualization` | App.tsx:110 | the Visual button assigns the rendering view and changes nothing else |
| `App.Session.ShowCode` | App.tsx:111 | the Code button assigns the source view, hides the explanation panel and changes nothing else |
| `App.Session.ToggleExplanation` | App.tsx:238 | the panel header flips `showExplanation` and changes nothing else |
| `App.Session.TryAgain` | App.tsx:270 | Try Again re-submits the search-field text with the same effect as a submission |
| `App.Session.Export` | App.tsx:65-71 | export offers nothing without an artifact; otherwise an HTML file whose content is exactly the artifact's `html`, named from its title |
| `Scenarios.SuggestionThenSuccess` | App.tsx:41-62 | a suggestion on the landing page shows the overlay while waiting, then the result with the explanation open and no error |
| `Scenarios.BlankSubmission` | App.tsx:43-45 | a blank search field, with no or an empty suggestion, starts nothing and stays on the landing page |
| `Scenarios.FailureThenTryAgain` | App.tsx:58-61 | a failure without a message shows the fallback text; Try Again re-submits the same query and clears the error; a success then holds the artifact |
| `Scenarios.FailureAfterSuccess` | App.tsx:208 | after a success, a failed second call shows the error box and the earlier artifact together |
| `Scenarios.OverlappingCalls` | App.tsx:93 | a second query from the header form while the first call is out: the overlay goes when one call settles, and the earlier call settling last leaves its artifact for the later query |
| `Scenarios.OverlappingCallsFailureLast` | App.tsx:55-61 | of two overlapping calls, a failure that settles last keeps the artifact of the call that succeeded and shows it under the error box |
| `Scenarios.ResetWhileLoading` | App.tsx:87 | the logo during a call shows the landing page; the call still completes and its artifact is held, but the header, download button included, stays collapsed until the next search while the landing page stays |
| `Scenarios.ExportBeforeAndAfter` | App.tsx:66-67 | export before any result offers nothing; after a result it offers the artifact's html as `text/html`, under the name derived from its title |
| `Scenarios.ToggleExplanationTwice` | App.tsx:238 | toggling the explanation twice restores every cell |
| `Scenarios.ViewButtonsIdempotent` | App.tsx:110-111 | pressing Visual or Code twice leaves the same state as pressing it once, with no call started |

## Left out

- The generation service (`services/geminiService.ts`): the prompt, the
  response schema sent to the model and the network call are not modelled.
  The generator is the input of `CompleteSuccess` (any three strings, since
  `JSON.parse` is not checked against the schema) or of `CompleteFailure`
  (a message that may be missing).
- The startup check for the API key only logs. It changes no behaviour, so
  there is nothing to model.
- A response whose fields are missing or not strings: the model's artifact
  always has three strings. In the code, a missing `title` would make
  `handleExport` throw.
- The sandboxed frame (`components/Visualizer.tsx`) and the copy button
  (`components/CodeViewer.tsx`) are browser mechanisms without logic of
  their own.
- The download mechanics (`Blob`, object URL, temporary link, click) are
  left out. `Export` returns the file it would offer.
- `ExportName.Lower`: only ASCII letters are lower-cased; the Unicode case
  mapping of `toLowerCase` is not modelled.
- `ExportName.LowerChar`: ASCII case mapping only, for the same reason.
- JSX layout, animation, the suggestion list and the styling of the disabled
  Generate button are not modelled. The trim guard covers what the disabled
  button prevents. The unused `HistoryItem` type is also left out.
- `e.preventDefault()` on form submission is a browser effect.
- The React rendering cycle is not modelled. Each handler's state updates
  are applied at once, which is how React batches them.
