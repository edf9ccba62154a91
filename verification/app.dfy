/** The application component (App.tsx): seven state cells updated by event
    handlers, the screens derived from them, and the export of the held
    artifact. The asynchronous `handleGenerate` is split at its `await` into
    BeginGenerate (everything before the call to the generator) and
    CompleteSuccess / CompleteFailure (the `try`/`catch`/`finally` after it);
    the generator itself is an input: the artifact it resolved with, or the
    message of the error it threw. */
module App {
  import opened Wrappers
  import opened Types
  import Text
  import ExportName

  /** Shown when the thrown error carries no message. */
  const FallbackError: string := "Failed to generate visualization. Please try again."

  /** The query a submission uses: `suggestion || concept`, so a missing or
      empty suggestion falls back to the text in the search field. */
  function ChosenQuery(suggestion: Option<string>, concept: string): (query: string)
    ensures query == concept || (suggestion.Some? && query == suggestion.value && |query| > 0)
    ensures suggestion.Some? && |suggestion.value| > 0 ==> query == suggestion.value
  {
    if suggestion.Some? && |suggestion.value| > 0 then suggestion.value else concept
  }

  /** The text recorded for a failed generation: `err.message || fallback`.
      It is never empty, so a recorded failure is always displayed. */
  function ErrorText(message: Option<string>): (text: string)
    ensures |text| > 0
    ensures text == FallbackError || (message.Some? && text == message.value)
    ensures message.Some? && |message.value| > 0 ==> text == message.value
  {
    if message.Some? && |message.value| > 0 then message.value else FallbackError
  }

  /** On every screen, one of the landing page and the result area is absent;
      the result area never shows under the loading overlay; the explanation
      text only shows inside the panel, and the panel only over the result;
      the toolbar only shows in the expanded header, that is, off the landing
      page. */
  lemma ScreenLayout(s: Session)
    ensures !(s.LandingVisible() && s.ResultVisible())
    ensures !(s.LoadingVisible() && s.ResultVisible())
    ensures s.ExplanationTextVisible() ==> s.ExplanationPanelVisible()
    ensures s.ExplanationPanelVisible() ==> s.ResultVisible()
    ensures s.ToolbarVisible() ==> !s.LandingVisible()
  {
  }

  /** What the invariant is for: in a valid session a recorded error is
      always on screen, since it is never the empty (falsy) string. */
  lemma RecordedErrorShown(s: Session)
    requires s.Valid()
    ensures s.ErrorVisible() <==> s.error.Some?
  {
  }

  /** What the export link offers for download. */
  datatype ExportFile = ExportFile(name: string, content: string, mimeType: string)

  class Session {
    var concept: string
    var isLoading: bool
    var error: Option<string>
    var data: Option<VisualizationResponse>
    var viewMode: ViewMode
    var hasSearched: bool
    var showExplanation: bool
    /** Calls to the generator that have started and not yet settled. The
        application keeps no such counter; it is here to say which
        completions can happen. */
    ghost var inFlight: nat

    /** A recorded error is never the empty string, and the loading overlay
        is only up while some call is outstanding. */
    ghost predicate Valid()
      reads this
    {
      (error.Some? ==> |error.value| > 0) && (isLoading ==> inFlight > 0)
    }

    /** The initial values of the state cells: the landing screen. */
    constructor ()
      ensures Valid()
      ensures concept == "" && !isLoading && error == None && data == None
      ensures viewMode == Visualization && !hasSearched && showExplanation
      ensures inFlight == 0
    {
      concept := "";
      isLoading := false;
      error := None;
      data := None;
      viewMode := Visualization;
      hasSearched := false;
      showExplanation := true;
      inFlight := 0;
    }

    // Screens and controls, as functions of the state.

    /** The landing page with the big search form and the suggestions. */
    predicate LandingVisible()
      reads this
    {
      !hasSearched
    }

    /** The loading overlay. */
    predicate LoadingVisible()
      reads this
    {
      isLoading
    }

    /** The held artifact, as a rendering or as source. */
    predicate ResultVisible()
      reads this
    {
      hasSearched && !isLoading && data.Some?
    }

    /** The explanation panel over the rendering. */
    predicate ExplanationPanelVisible()
      reads this
    {
      ResultVisible() && viewMode == Visualization
    }

    /** The explanation text inside the panel, rather than its header only. */
    predicate ExplanationTextVisible()
      reads this
    {
      ExplanationPanelVisible() && showExplanation
    }

    /** The error box with its Try Again button (an empty string is falsy). */
    predicate ErrorVisible()
      reads this
    {
      error.Some? && |error.value| > 0
    }

    /** The Visual / Code switch and the download button. They are rendered
        inside the header only when an artifact is held, and the header itself
        is collapsed and takes no clicks on the landing page. */
    predicate ToolbarVisible()
      reads this
    {
      hasSearched && data.Some?
    }

    // Event handlers.

    /** Typing in either search field. */
    method EditConcept(text: string)
      requires Valid()
      modifies this
      ensures Valid()
      ensures concept == text
      ensures isLoading == old(isLoading) && error == old(error) && data == old(data)
      ensures viewMode == old(viewMode) && hasSearched == old(hasSearched)
      ensures showExplanation == old(showExplanation) && inFlight == old(inFlight)
    {
      concept := text;
    }

    /** `handleGenerate` up to its `await`: pick the query, give up silently
        when it is blank, otherwise record the query, show the loading overlay,
        clear the error, leave the landing page, switch to the rendering, open
        the explanation and start the call. The artifact on screen stays until
        the call settles. */
    method BeginGenerate(suggestion: Option<string>) returns (started: bool, query: string)
      requires Valid()
      modifies this
      ensures Valid()
      ensures query == ChosenQuery(suggestion, old(concept))
      ensures started <==> |Text.Trim(query)| != 0
      ensures !started ==> unchanged(this)
      ensures started ==>
        && concept == query && isLoading && error == None && hasSearched
        && viewMode == Visualization && showExplanation
        && data == old(data) && inFlight == old(inFlight) + 1
      ensures started ==> LoadingVisible() && !LandingVisible() && !ResultVisible() && !ErrorVisible()
      ensures started ==> (ToolbarVisible() <==> old(data).Some?)
    {
      query := ChosenQuery(suggestion, concept);
      started := |Text.Trim(query)| != 0;
      if !started {
        return;
      }
      concept := query;
      isLoading := true;
      error := None;
      hasSearched := true;
      viewMode := Visualization;
      showExplanation := true;
      inFlight := inFlight + 1;
    }

    /** The call resolved: store the artifact and hide the overlay. */
    method CompleteSuccess(result: VisualizationResponse)
      requires Valid() && inFlight > 0
      modifies this
      ensures Valid()
      ensures data == Some(result) && !isLoading && inFlight == old(inFlight) - 1
      ensures concept == old(concept) && error == old(error) && viewMode == old(viewMode)
      ensures hasSearched == old(hasSearched) && showExplanation == old(showExplanation)
      ensures !LoadingVisible() && (ToolbarVisible() <==> hasSearched) && (ResultVisible() <==> hasSearched)
    {
      data := Some(result);
      isLoading := false;
      inFlight := inFlight - 1;
    }

    /** The call threw: record its message (or the fallback) and hide the
        overlay. The previous artifact is kept. */
    method CompleteFailure(message: Option<string>)
      requires Valid() && inFlight > 0
      modifies this
      ensures Valid()
      ensures error == Some(ErrorText(message)) && !isLoading && inFlight == old(inFlight) - 1
      ensures data == old(data) && concept == old(concept) && viewMode == old(viewMode)
      ensures hasSearched == old(hasSearched) && showExplanation == old(showExplanation)
      ensures ErrorVisible() && !LoadingVisible()
      ensures ResultVisible() <==> hasSearched && old(data).Some?
    {
      error := Some(ErrorText(message));
      isLoading := false;
      inFlight := inFlight - 1;
    }

    /** The logo: back to the landing page, dropping the query and the
        artifact. The error, the overlay, the view and the explanation flag
        are left as they were, and a call still in flight is not cancelled. */
    method ResetToLanding()
      requires Valid()
      modifies this
      ensures Valid()
      ensures !hasSearched && data == None && concept == ""
      ensures error == old(error) && isLoading == old(isLoading) && viewMode == old(viewMode)
      ensures showExplanation == old(showExplanation) && inFlight == old(inFlight)
      ensures LandingVisible() && !ResultVisible() && !ToolbarVisible()
    {
      hasSearched := false;
      data := None;
      concept := "";
    }

    /** The Visual button: assigns the rendering view, whatever it was. */
    method ShowVisualization()
      requires Valid()
      modifies this
      ensures Valid()
      ensures viewMode == Visualization
      ensures concept == old(concept) && isLoading == old(isLoading) && error == old(error)
      ensures data == old(data) && hasSearched == old(hasSearched)
      ensures showExplanation == old(showExplanation) && inFlight == old(inFlight)
      ensures ResultVisible() == old(ResultVisible()) && (ExplanationPanelVisible() <==> ResultVisible())
    {
      viewMode := Visualization;
    }

    /** The Code button: assigns the source view, whatever it was. */
    method ShowCode()
      requires Valid()
      modifies this
      ensures Valid()
      ensures viewMode == Code
      ensures concept == old(concept) && isLoading == old(isLoading) && error == old(error)
      ensures data == old(data) && hasSearched == old(hasSearched)
      ensures showExplanation == old(showExplanation) && inFlight == old(inFlight)
      ensures ResultVisible() == old(ResultVisible()) && !ExplanationPanelVisible()
    {
      viewMode := Code;
    }

    /** The explanation panel's header: flips the panel open or closed. */
    method ToggleExplanation()
      requires Valid()
      modifies this
      ensures Valid()
      ensures showExplanation == !old(showExplanation)
      ensures concept == old(concept) && isLoading == old(isLoading) && error == old(error)
      ensures data == old(data) && viewMode == old(viewMode)
      ensures hasSearched == old(hasSearched) && inFlight == old(inFlight)
    {
      showExplanation := !showExplanation;
    }

    /** Try Again: `handleGenerate()` with no suggestion, so it re-submits the
        text in the search field. */
    method TryAgain() returns (started: bool)
      requires Valid()
      modifies this
      ensures Valid()
      ensures started <==> |Text.Trim(old(concept))| != 0
      ensures !started ==> unchanged(this)
      ensures started ==>
        && concept == old(concept) && isLoading && error == None && hasSearched
        && viewMode == Visualization && showExplanation
        && data == old(data) && inFlight == old(inFlight) + 1
    {
      var query;
      started, query := BeginGenerate(None);
    }

    /** `handleExport`: nothing without an artifact; otherwise an HTML file
        whose content is the artifact's document, named after its title. */
    method Export() returns (file: Option<ExportFile>)
      ensures file.None? <==> data.None?
      ensures data.Some? ==> file.value.content == data.value.html && file.value.mimeType == "text/html"
      ensures data.Some? ==> file.value.name == ExportName.FileName(data.value.title)
    {
      if data.None? {
        file := None;
      } else {
        var name := ExportName.FileName(data.value.title);
        file := Some(ExportFile(name, data.value.html, "text/html"));
      }
    }
  }
}
