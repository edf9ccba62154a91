/** Sequences of events on a fresh session, and what the screen shows after
    them. They follow the order in which the handlers of App.tsx can fire,
    including the interleavings that the asynchronous `handleGenerate`
    allows, since the header search form stays usable while a call is out. */
module Scenarios {
  import opened Wrappers
  import opened Types
  import opened App
  import Text
  import ExportName

  /** Clicking a suggestion (such as "Lorenz Attractor") on the landing page
      and the call resolving: the overlay is up while waiting, then the
      rendering is shown with its explanation open. */
  method SuggestionThenSuccess(suggestion: string, artifact: VisualizationResponse)
    returns (overlayWhileWaiting: bool, query: string, resultShown: bool, explanationShown: bool,
             errorShown: bool, held: Option<VisualizationResponse>)
    requires !Text.IsBlank(suggestion)
    ensures overlayWhileWaiting && query == suggestion
    ensures resultShown && explanationShown && !errorShown && held == Some(artifact)
  {
    var s := new Session();
    var started;
    Text.TrimEmptyIffBlank(suggestion);
    started, query := s.BeginGenerate(Some(suggestion));
    overlayWhileWaiting := s.LoadingVisible();
    s.CompleteSuccess(artifact);
    resultShown := s.ResultVisible();
    explanationShown := s.ExplanationTextVisible();
    errorShown := s.ErrorVisible();
    held := s.data;
  }

  /** Submitting a blank search field (an empty suggestion falls back to the
      field) does nothing: no call, still on the landing page. */
  method BlankSubmission(text: string, suggestion: Option<string>)
    returns (started: bool, landing: bool, loading: bool)
    requires Text.IsBlank(text)
    requires suggestion.None? || suggestion.value == ""
    ensures !started && landing && !loading
  {
    var s := new Session();
    s.EditConcept(text);
    Text.TrimEmptyIffBlank(text);
    var query;
    started, query := s.BeginGenerate(suggestion);
    landing := s.LandingVisible();
    loading := s.LoadingVisible();
  }

  /** A failed call shows the fallback message when the error has none; Try
      Again re-submits the same query, clears the error, and a success then
      shows the result. */
  method FailureThenTryAgain(topic: string, artifact: VisualizationResponse)
    returns (shownError: Option<string>, retried: bool, errorAfterRetry: Option<string>,
             held: Option<VisualizationResponse>, query: string)
    requires !Text.IsBlank(topic)
    ensures shownError == Some(FallbackError) && retried && errorAfterRetry == None
    ensures held == Some(artifact) && query == topic
  {
    var s := new Session();
    var started;
    Text.TrimEmptyIffBlank(topic);
    started, query := s.BeginGenerate(Some(topic));
    s.CompleteFailure(None);
    shownError := s.error;
    retried := s.TryAgain();
    errorAfterRetry := s.error;
    s.CompleteSuccess(artifact);
    held := s.data;
    query := s.concept;
  }

  /** A failure after an earlier success keeps that earlier artifact on
      screen, under the error box. */
  method FailureAfterSuccess(topic: string, earlier: VisualizationResponse, message: Option<string>)
    returns (resultShown: bool, errorShown: bool, held: Option<VisualizationResponse>)
    requires !Text.IsBlank(topic)
    ensures resultShown && errorShown && held == Some(earlier)
  {
    var s := new Session();
    var started, query;
    Text.TrimEmptyIffBlank(topic);
    started, query := s.BeginGenerate(Some(topic));
    s.CompleteSuccess(earlier);
    started, query := s.BeginGenerate(None);
    s.CompleteFailure(message);
    resultShown := s.ResultVisible();
    errorShown := s.ErrorVisible();
    held := s.data;
  }

  /** Two calls out at once (the second submitted from the header form while
      the first is loading). When the later call settles first, the overlay
      goes away although the earlier call is still out, and when the earlier
      call then resolves its artifact replaces the later one: the screen
      shows the result for a query that is no longer in the search field. */
  method OverlappingCalls(firstQuery: string, secondQuery: string,
                          first: VisualizationResponse, second: VisualizationResponse)
    returns (overlayWithCallOut: bool, query: string, held: Option<VisualizationResponse>)
    requires !Text.IsBlank(firstQuery) && !Text.IsBlank(secondQuery)
    ensures !overlayWithCallOut && query == secondQuery && held == Some(first)
  {
    var s := new Session();
    var started, q;
    Text.TrimEmptyIffBlank(firstQuery);
    Text.TrimEmptyIffBlank(secondQuery);
    started, q := s.BeginGenerate(Some(firstQuery));
    s.EditConcept(secondQuery);
    started, q := s.BeginGenerate(None);
    s.CompleteSuccess(second);
    overlayWithCallOut := s.LoadingVisible();
    s.CompleteSuccess(first);
    query := s.concept;
    held := s.data;
  }

  /** Two calls out at once where the one that settles last fails: the
      failure records its error but does not touch `data`, so the artifact of
      the call that succeeded stays on screen under the error box. */
  method OverlappingCallsFailureLast(firstQuery: string, secondQuery: string,
                                     second: VisualizationResponse, message: Option<string>)
    returns (resultShown: bool, errorShown: bool, held: Option<VisualizationResponse>)
    requires !Text.IsBlank(firstQuery) && !Text.IsBlank(secondQuery)
    ensures resultShown && errorShown && held == Some(second)
  {
    var s := new Session();
    var started, q;
    Text.TrimEmptyIffBlank(firstQuery);
    Text.TrimEmptyIffBlank(secondQuery);
    started, q := s.BeginGenerate(Some(firstQuery));
    s.EditConcept(secondQuery);
    started, q := s.BeginGenerate(None);
    s.CompleteSuccess(second);
    s.CompleteFailure(message);
    resultShown := s.ResultVisible();
    errorShown := s.ErrorVisible();
    held := s.data;
  }

  /** Clicking the logo while a call is out does not cancel it: the landing
      page comes back, and when the call resolves its artifact is held while
      the landing page stays. The header, download button included, stays
      collapsed until the next search. */
  method ResetWhileLoading(topic: string, artifact: VisualizationResponse)
    returns (landing: bool, resultShown: bool, toolbar: bool, held: Option<VisualizationResponse>)
    requires !Text.IsBlank(topic)
    ensures landing && !resultShown && !toolbar && held == Some(artifact)
  {
    var s := new Session();
    var started, q;
    Text.TrimEmptyIffBlank(topic);
    started, q := s.BeginGenerate(Some(topic));
    s.ResetToLanding();
    s.CompleteSuccess(artifact);
    landing := s.LandingVisible();
    resultShown := s.ResultVisible();
    toolbar := s.ToolbarVisible();
    held := s.data;
  }

  /** Exporting on the landing page offers nothing; after a result it offers
      the artifact's document under the derived name. */
  method ExportBeforeAndAfter(topic: string, artifact: VisualizationResponse)
    returns (before: Option<ExportFile>, after: Option<ExportFile>)
    requires !Text.IsBlank(topic)
    ensures before == None
    ensures after.Some? && after.value.content == artifact.html && after.value.mimeType == "text/html"
    ensures after.Some? && after.value.name == ExportName.FileName(artifact.title)
  {
    var s := new Session();
    before := s.Export();
    var started, q;
    Text.TrimEmptyIffBlank(topic);
    started, q := s.BeginGenerate(Some(topic));
    s.CompleteSuccess(artifact);
    after := s.Export();
  }

  /** Opening or closing the explanation twice restores the panel and changes
      nothing else. */
  method ToggleExplanationTwice(s: Session)
    requires s.Valid()
    modifies s
    ensures s.Valid()
    ensures s.showExplanation == old(s.showExplanation)
    ensures s.concept == old(s.concept) && s.isLoading == old(s.isLoading) && s.error == old(s.error)
    ensures s.data == old(s.data) && s.viewMode == old(s.viewMode) && s.hasSearched == old(s.hasSearched)
    ensures s.inFlight == old(s.inFlight)
  {
    s.ToggleExplanation();
    s.ToggleExplanation();
  }

  /** The Visual and Code buttons assign rather than toggle: pressing one
      twice leaves the same state as pressing it once, and no call starts. */
  method ViewButtonsIdempotent(s: Session, code: bool)
    requires s.Valid()
    modifies s
    ensures s.Valid()
    ensures s.viewMode == if code then Code else Visualization
    ensures s.concept == old(s.concept) && s.isLoading == old(s.isLoading) && s.error == old(s.error)
    ensures s.data == old(s.data) && s.hasSearched == old(s.hasSearched)
    ensures s.showExplanation == old(s.showExplanation) && s.inFlight == old(s.inFlight)
  {
    if code {
      s.ShowCode();
      s.ShowCode();
    } else {
      s.ShowVisualization();
      s.ShowVisualization();
    }
  }
}
