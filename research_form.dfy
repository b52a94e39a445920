/**
 * The question form (components/research-form.tsx). Submitting a blank
 * query does nothing; otherwise the research store is put into the loading
 * state, the trimmed question is sent, and the store is settled with the
 * response or with the error's message. The awaited research call is the
 * parameter `perform`.
 */
module ResearchForm {
  import opened Types
  import Text
  import RS = ResearchStore
  import Api

  /** The message stored when the research call rejects with something that is not an `Error`. */
  const ResearchFailedMessage := "Research failed"

  /** `!query.trim()`: the query is blank exactly when it is whitespace only. */
  predicate IsBlank(query: string)
    ensures IsBlank(query) <==> Text.AllWhitespace(query)
  {
    Text.TrimEmptyIffBlank(query);
    Text.Trim(query) == []
  }

  /**
   * `isLoading || !query.trim()`: the submit button is enabled only when no
   * request is in flight and the query has a non-whitespace character.
   */
  predicate SubmitDisabled(isLoading: bool, query: string)
    ensures !SubmitDisabled(isLoading, query) <==>
      !isLoading && exists i :: 0 <= i < |query| && !Text.IsWhitespace(query[i])
  {
    isLoading || IsBlank(query)
  }

  /** The store action the settled research call leads to. */
  function SettleAction(outcome: Outcome<ResearchResponse>): (a: RS.Action)
    ensures a.SetResult? || a.SetError?
  {
    match outcome
    case Ok(response) => RS.SetResult(response)
    case Threw(thrown) => RS.SetError(MessageOr(thrown, ResearchFailedMessage))
  }

  /** The store actions `handleSubmit` performs, in order, for a query and the call's outcome. */
  function SubmitActions(query: string, outcome: Outcome<ResearchResponse>): seq<RS.Action> {
    if IsBlank(query) then [] else [RS.StartResearch, SettleAction(outcome)]
  }

  /**
   * A blank query performs no action; any other query performs exactly two:
   * `startResearch` first, then one of `setResult` or `setError`.
   */
  lemma SubmitActionsShape(query: string, outcome: Outcome<ResearchResponse>)
    ensures IsBlank(query) <==> SubmitActions(query, outcome) == []
    ensures !IsBlank(query) ==>
      && |SubmitActions(query, outcome)| == 2
      && SubmitActions(query, outcome)[0] == RS.StartResearch
      && (SubmitActions(query, outcome)[1].SetResult? <==> outcome.Ok?)
      && (SubmitActions(query, outcome)[1].SetError? <==> outcome.Threw?)
  {
  }

  /**
   * What a non-blank submission leaves in the store: not loading, and the
   * response as the result with no error, or no result and the error's
   * message (the fallback for a non-`Error`); the question field is untouched.
   */
  lemma SubmitSettles(s: RS.State, query: string, outcome: Outcome<ResearchResponse>)
    requires !IsBlank(query)
    ensures var t := RS.Run(s, SubmitActions(query, outcome));
      && !t.isLoading
      && t.currentQuestion == s.currentQuestion
      && (outcome.Ok? ==> t.result == Some(outcome.value) && t.error.None?)
      && (outcome.Threw? ==>
            t.result.None? && t.error == Some(MessageOr(outcome.thrown, ResearchFailedMessage)))
      && (outcome.Threw? && outcome.thrown.ErrorObject? ==> t.error == Some(outcome.thrown.message))
      && (outcome == Threw(NonError) ==> t.error == Some(ResearchFailedMessage))
  {
    RS.RunTwo(s, RS.StartResearch, SettleAction(outcome));
  }

  /** An enabled submit button means the query is not blank, so a click sends a request. */
  lemma EnabledMeansSent(isLoading: bool, query: string, outcome: Outcome<ResearchResponse>)
    requires !SubmitDisabled(isLoading, query)
    ensures SubmitActions(query, outcome) != []
    ensures Text.Trim(query) != []
  {
  }

  /**
   * Through the HTTP client every failure reaches the form as an `Error`, so
   * the store shows the client's classified message and never the fallback.
   */
  lemma ClientFailureShowsClassifiedMessage(s: RS.State, query: string, f: Api.HttpFailure)
    requires !IsBlank(query)
    ensures var t := RS.Run(s, SubmitActions(query, Api.InterceptResponse(Api.Failed(f))));
      t.error == Some(Api.FailureMessage(f)) && t.result.None? && !t.isLoading
  {
    SubmitSettles(s, query, Api.InterceptResponse(Api.Failed(f)));
  }

  /**
   * `handleSubmit`: returns the request it sent, if any. The store ends in
   * the state the submission's actions lead to.
   */
  method HandleSubmit(store: RS.Store, query: string, perform: ResearchRequest -> Outcome<ResearchResponse>)
      returns (sent: Option<ResearchRequest>)
    requires store.Valid()
    modifies store
    ensures store.Valid()
    ensures IsBlank(query) ==> sent.None? && store.Snapshot() == old(store.Snapshot())
    ensures !IsBlank(query) ==> sent == Some(ResearchRequest(Text.Trim(query), true))
    ensures store.Snapshot()
         == RS.Run(old(store.Snapshot()), SubmitActions(query, perform(ResearchRequest(Text.Trim(query), true))))
    ensures !IsBlank(query) ==> !store.isLoading
  {
    if Text.Trim(query) == [] {
      return None;
    }
    ghost var before := store.Snapshot();
    store.StartResearch();
    var request := ResearchRequest(Text.Trim(query), true);
    var outcome := perform(request);
    match outcome {
      case Ok(response) =>
        store.SetResult(response);
      case Threw(thrown) =>
        store.SetError(MessageOr(thrown, ResearchFailedMessage));
    }
    RS.RunTwo(before, RS.StartResearch, SettleAction(outcome));
    sent := Some(request);
  }
}
