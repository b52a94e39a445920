/**
 * The research store (store/research-store.ts): the question being asked,
 * whether a request is in flight, and the result or error it settled with.
 * `State` and `Apply` give the meaning of each action; the `Store` class
 * holds the four fields and updates them in place.
 */
module ResearchStore {
  import opened Types

  datatype State = State(
    currentQuestion: string,
    isLoading: bool,
    result: Option<ResearchResponse>,
    error: Option<string>)

  /** The five synchronous actions of the store. */
  datatype Action =
    | SetQuestion(question: string)
    | StartResearch
    | SetResult(response: ResearchResponse)
    | SetError(message: string)
    | Reset

  const Initial := State("", false, None, None)

  /** While a request is in flight there is neither a result nor an error. */
  predicate LoadingIsClean(s: State) {
    s.isLoading ==> s.result.None? && s.error.None?
  }

  /**
   * The fields each action overwrites; the others keep their values. Only
   * `startResearch` raises the loading flag, every action keeps "loading
   * means neither a result nor an error", and `reset` forgets everything.
   */
  function Apply(s: State, a: Action): (t: State)
    ensures t.isLoading <==> a.StartResearch? || (a.SetQuestion? && s.isLoading)
    ensures LoadingIsClean(s) ==> LoadingIsClean(t)
    ensures a.Reset? ==> t == Initial
  {
    match a
    case SetQuestion(q) => s.(currentQuestion := q)
    case StartResearch => s.(isLoading := true, error := None, result := None)
    case SetResult(r) => s.(result := Some(r), isLoading := false, error := None)
    case SetError(m) => s.(error := Some(m), isLoading := false)
    case Reset => State("", false, None, None)
  }

  /** The actions applied one after another, first to last. */
  function Run(s: State, actions: seq<Action>): State
    decreases |actions|
  {
    if actions == [] then s else Run(Apply(s, actions[0]), actions[1..])
  }

  /** Two actions in a row. */
  lemma RunTwo(s: State, a: Action, b: Action)
    ensures Run(s, [a, b]) == Apply(Apply(s, a), b)
  {
    assert [a, b][1..] == [b];
    assert [b][1..] == [];
    assert Run(Apply(s, a), [b]) == Run(Apply(Apply(s, a), b), []);
  }

  lemma InitialIsIdle()
    ensures Initial.currentQuestion == "" && !Initial.isLoading
    ensures Initial.result.None? && Initial.error.None?
    ensures LoadingIsClean(Initial)
  {
  }

  lemma SetQuestionChangesOnlyQuestion(s: State, q: string)
    ensures var t := Apply(s, SetQuestion(q));
      t.currentQuestion == q && t.isLoading == s.isLoading && t.result == s.result && t.error == s.error
  {
  }

  /** Starting enters the loading state, clears result and error, keeps the question, and is idempotent. */
  lemma StartResearchClears(s: State)
    ensures var t := Apply(s, StartResearch);
      t.isLoading && t.result.None? && t.error.None? && t.currentQuestion == s.currentQuestion
    ensures Apply(Apply(s, StartResearch), StartResearch) == Apply(s, StartResearch)
  {
  }

  lemma SetResultSettles(s: State, r: ResearchResponse)
    ensures var t := Apply(s, SetResult(r));
      t.result == Some(r) && !t.isLoading && t.error.None? && t.currentQuestion == s.currentQuestion
  {
  }

  /** An error does not clear a result, so a result followed by an error leaves both set. */
  lemma SetErrorKeepsResult(s: State, r: ResearchResponse, m: string)
    ensures var t := Apply(s, SetError(m));
      t.error == Some(m) && !t.isLoading && t.result == s.result && t.currentQuestion == s.currentQuestion
    ensures var u := Run(s, [SetResult(r), SetError(m)]);
      u.result == Some(r) && u.error == Some(m)
  {
    RunTwo(s, SetResult(r), SetError(m));
  }

  /** Reset returns the initial state from any state, and resetting twice is resetting once. */
  lemma ResetIsInitial(s: State)
    ensures Apply(s, Reset) == Initial
    ensures Apply(Apply(s, Reset), Reset) == Apply(s, Reset)
  {
  }

  /** Starting then settling gives exactly one of a result or an error, and nothing in flight. */
  lemma StartThenSettle(s: State, r: ResearchResponse, m: string)
    ensures var t := Run(s, [StartResearch, SetResult(r)]);
      !t.isLoading && t.result == Some(r) && t.error.None?
    ensures var t := Run(s, [StartResearch, SetError(m)]);
      !t.isLoading && t.result.None? && t.error == Some(m)
  {
    RunTwo(s, StartResearch, SetResult(r));
    RunTwo(s, StartResearch, SetError(m));
  }

  /** Any sequence of actions from a clean state ends in a clean state. */
  lemma {:induction false} RunPreservesClean(s: State, actions: seq<Action>)
    requires LoadingIsClean(s)
    ensures LoadingIsClean(Run(s, actions))
    decreases |actions|
  {
    if actions != [] {
      RunPreservesClean(Apply(s, actions[0]), actions[1..]);
    }
  }

  /** Every state reachable from the initial state is clean. */
  lemma ReachableIsClean(actions: seq<Action>)
    ensures LoadingIsClean(Run(Initial, actions))
  {
    RunPreservesClean(Initial, actions);
  }

  class Store {
    var currentQuestion: string
    var isLoading: bool
    var result: Option<ResearchResponse>
    var error: Option<string>

    function Snapshot(): State
      reads this
    {
      State(currentQuestion, isLoading, result, error)
    }

    ghost predicate Valid()
      reads this
    {
      LoadingIsClean(Snapshot())
    }

    constructor ()
      ensures Valid() && Snapshot() == Initial
    {
      currentQuestion, isLoading, result, error := "", false, None, None;
    }

    method SetQuestion(question: string)
      requires Valid()
      modifies this
      ensures Valid()
      ensures currentQuestion == question
      ensures isLoading == old(isLoading) && result == old(result) && error == old(error)
      ensures Snapshot() == Apply(old(Snapshot()), Action.SetQuestion(question))
    {
      currentQuestion := question;
    }

    method StartResearch()
      requires Valid()
      modifies this
      ensures Valid()
      ensures isLoading && error.None? && result.None? && currentQuestion == old(currentQuestion)
      ensures Snapshot() == Apply(old(Snapshot()), Action.StartResearch)
    {
      isLoading, error, result := true, None, None;
    }

    method SetResult(response: ResearchResponse)
      requires Valid()
      modifies this
      ensures Valid()
      ensures result == Some(response) && !isLoading && error.None? && currentQuestion == old(currentQuestion)
      ensures Snapshot() == Apply(old(Snapshot()), Action.SetResult(response))
    {
      result, isLoading, error := Some(response), false, None;
    }

    method SetError(message: string)
      requires Valid()
      modifies this
      ensures Valid()
      ensures error == Some(message) && !isLoading
      ensures result == old(result) && currentQuestion == old(currentQuestion)
      ensures Snapshot() == Apply(old(Snapshot()), Action.SetError(message))
    {
      error, isLoading := Some(message), false;
    }

    method Reset()
      modifies this
      ensures Valid() && Snapshot() == Initial
      ensures Snapshot() == Apply(old(Snapshot()), Action.Reset)
    {
      currentQuestion, isLoading, result, error := "", false, None, None;
    }
  }
}
