/**
 * The session-history store (store/session-store.ts): the fetched list of
 * past sessions, a loading flag, the selected session and the last error.
 * The asynchronous fetch is split into the step that runs before the await
 * (`BeginFetch`) and the step that runs when the listing call settles
 * (`SettleFetch`); the awaited call itself is a parameter.
 */
module SessionStore {
  import opened Types

  datatype State = State(
    sessions: seq<Session>,
    isLoading: bool,
    selectedSession: Option<Session>,
    error: Option<string>)

  const Initial := State([], false, None, None)

  /** The message stored when the fetch rejects with something that is not an `Error`. */
  const FetchFailedMessage := "Failed to fetch sessions"

  /**
   * The store's actions. `fetchSessions` is the pair BeginFetch (before the
   * listing call is awaited) and SettleFetch (when it settles).
   */
  datatype Action =
    | BeginFetch
    | SettleFetch(outcome: Outcome<SessionsResponse>)
    | SelectSession(id: string)
    | ClearSelection
    | SetLoading(loading: bool)
    | SetSessions(list: seq<Session>)

  /**
   * The fields each action overwrites; the others keep their values. Only a
   * successful fetch and `setSessions` replace the list, a selection is
   * always a listed session with the requested id, and a fetch raises the
   * loading flag when it starts and lowers it when it settles.
   */
  function Apply(s: State, a: Action): (t: State)
    ensures t.sessions != s.sessions ==> a.SetSessions? || (a.SettleFetch? && a.outcome.Ok?)
    ensures a.SelectSession? && t.selectedSession.Some? ==>
      t.selectedSession.value in s.sessions && t.selectedSession.value.sessionId == a.id
    ensures a.BeginFetch? ==> t.isLoading && t.error.None?
    ensures a.SettleFetch? ==> !t.isLoading
  {
    match a
    case BeginFetch => s.(isLoading := true, error := None)
    case SettleFetch(Ok(response)) => s.(sessions := response.sessions, isLoading := false)
    case SettleFetch(Threw(thrown)) => s.(error := Some(MessageOr(thrown, FetchFailedMessage)), isLoading := false)
    case SelectSession(id) => s.(selectedSession := Find(s.sessions, id))
    case ClearSelection => s.(selectedSession := None)
    case SetLoading(loading) => s.(isLoading := loading)
    case SetSessions(list) => s.(sessions := list)
  }

  /** The position of the first session with the given id, or the length of the list when there is none. */
  function FirstIndexOf(sessions: seq<Session>, id: string): (k: nat)
    ensures k <= |sessions|
    ensures k < |sessions| ==> sessions[k].sessionId == id
    ensures forall j :: 0 <= j < k ==> sessions[j].sessionId != id
    decreases |sessions|
  {
    if sessions == [] then 0
    else if sessions[0].sessionId == id then 0
    else 1 + FirstIndexOf(sessions[1..], id)
  }

  /** `sessions.find((s) => s.session_id === id) || null` */
  function Find(sessions: seq<Session>, id: string): (r: Option<Session>)
    ensures r.Some? ==> r.value in sessions && r.value.sessionId == id
    ensures r.None? <==> forall j :: 0 <= j < |sessions| ==> sessions[j].sessionId != id
  {
    var k := FirstIndexOf(sessions, id);
    if k < |sessions| then Some(sessions[k]) else None
  }

  lemma InitialIsEmpty()
    ensures Initial.sessions == [] && !Initial.isLoading
    ensures Initial.selectedSession.None? && Initial.error.None?
  {
  }

  /** Beginning a fetch raises the loading flag and clears the error, and touches nothing else. */
  lemma BeginFetchEffect(s: State)
    ensures var t := Apply(s, BeginFetch);
      t.isLoading && t.error.None? && t.sessions == s.sessions && t.selectedSession == s.selectedSession
  {
  }

  /** A successful fetch replaces the list wholesale (no merge) and clears the loading flag. */
  lemma SuccessReplacesSessions(s: State, response: SessionsResponse)
    ensures var t := Apply(s, SettleFetch(Ok(response)));
      t.sessions == response.sessions && !t.isLoading && t.error == s.error && t.selectedSession == s.selectedSession
  {
  }

  /** A failed fetch records the message (or the fallback), clears the loading flag and keeps the list. */
  lemma FailureKeepsSessions(s: State, thrown: Thrown)
    ensures var t := Apply(s, SettleFetch(Threw(thrown)));
      && !t.isLoading
      && t.sessions == s.sessions
      && t.selectedSession == s.selectedSession
      && t.error == Some(if thrown.ErrorObject? then thrown.message else FetchFailedMessage)
  {
  }

  /** The lookup yields the first session with the id, or nothing exactly when no session has it. */
  lemma FindIsFirstMatch(sessions: seq<Session>, id: string)
    ensures Find(sessions, id).None? <==> forall j :: 0 <= j < |sessions| ==> sessions[j].sessionId != id
    ensures Find(sessions, id).Some? ==>
      exists k :: 0 <= k < |sessions| && sessions[k] == Find(sessions, id).value
        && sessions[k].sessionId == id
        && forall j :: 0 <= j < k ==> sessions[j].sessionId != id
  {
    var k := FirstIndexOf(sessions, id);
    if k < |sessions| {
      assert sessions[k] == Find(sessions, id).value;
    }
  }

  /** A selected session is an element of the list it was selected from and carries the id. */
  lemma SelectionIsMember(s: State, id: string)
    ensures var t := Apply(s, SelectSession(id));
      && (t.selectedSession.Some? ==> t.selectedSession.value in s.sessions && t.selectedSession.value.sessionId == id)
      && t.sessions == s.sessions && t.isLoading == s.isLoading && t.error == s.error
  {
  }

  /** Each setter changes its own field only. */
  lemma SettersChangeOneField(s: State, loading: bool, sessions: seq<Session>)
    ensures Apply(s, ClearSelection) == s.(selectedSession := None)
    ensures Apply(s, SetLoading(loading)) == s.(isLoading := loading)
    ensures Apply(s, SetSessions(sessions)) == s.(sessions := sessions)
  {
  }

  /**
   * Neither a fetch nor `setSessions` re-resolves the selection: after
   * selecting a session and refetching a list without it, the selection
   * still holds the old session, which is no longer in the list.
   */
  lemma SelectionCanGoStale(a: Session, b: Session)
    requires a.sessionId != b.sessionId
    ensures var s := Apply(Apply(Apply(Apply(Initial, SetSessions([a])), SelectSession(a.sessionId)), BeginFetch),
                           SettleFetch(Ok(SessionsResponse([b], 1))));
      s.selectedSession == Some(a) && a !in s.sessions
    ensures var s := Apply(Apply(Apply(Initial, SetSessions([a])), SelectSession(a.sessionId)), SetSessions([b]));
      s.selectedSession == Some(a) && a !in s.sessions
  {
    assert FirstIndexOf([a], a.sessionId) == 0;
  }

  class Store {
    var sessions: seq<Session>
    var isLoading: bool
    var selectedSession: Option<Session>
    var error: Option<string>

    function Snapshot(): State
      reads this
    {
      State(sessions, isLoading, selectedSession, error)
    }

    constructor ()
      ensures Snapshot() == Initial
    {
      sessions, isLoading, selectedSession, error := [], false, None, None;
    }

    method BeginFetch()
      modifies this
      ensures isLoading && error.None?
      ensures sessions == old(sessions) && selectedSession == old(selectedSession)
      ensures Snapshot() == Apply(old(Snapshot()), Action.BeginFetch)
    {
      isLoading, error := true, None;
    }

    method SettleFetch(outcome: Outcome<SessionsResponse>)
      modifies this
      ensures !isLoading && selectedSession == old(selectedSession)
      ensures outcome.Ok? ==> sessions == outcome.value.sessions && error == old(error)
      ensures outcome.Threw? ==> sessions == old(sessions) && error == Some(MessageOr(outcome.thrown, FetchFailedMessage))
      ensures Snapshot() == Apply(old(Snapshot()), Action.SettleFetch(outcome))
    {
      match outcome {
        case Ok(response) =>
          sessions, isLoading := response.sessions, false;
        case Threw(thrown) =>
          error, isLoading := Some(MessageOr(thrown, FetchFailedMessage)), false;
      }
    }

    /** `fetchSessions(limit)`: begin, await the listing call for `limit` sessions, settle. */
    method FetchSessions(limit: int, listRecent: int -> Outcome<SessionsResponse>)
      modifies this
      ensures !isLoading && selectedSession == old(selectedSession)
      ensures Snapshot() == Apply(Apply(old(Snapshot()), Action.BeginFetch), Action.SettleFetch(listRecent(limit)))
    {
      BeginFetch();
      var outcome := listRecent(limit);
      SettleFetch(outcome);
    }

    method SelectSession(id: string)
      modifies this
      ensures selectedSession == Find(sessions, id)
      ensures sessions == old(sessions) && isLoading == old(isLoading) && error == old(error)
      ensures Snapshot() == Apply(old(Snapshot()), Action.SelectSession(id))
    {
      selectedSession := Find(sessions, id);
    }

    method ClearSelection()
      modifies this
      ensures selectedSession.None?
      ensures Snapshot() == Apply(old(Snapshot()), Action.ClearSelection)
    {
      selectedSession := None;
    }

    method SetLoading(loading: bool)
      modifies this
      ensures isLoading == loading
      ensures Snapshot() == Apply(old(Snapshot()), Action.SetLoading(loading))
    {
      isLoading := loading;
    }

    method SetSessions(list: seq<Session>)
      modifies this
      ensures sessions == list && selectedSession == old(selectedSession)
      ensures Snapshot() == Apply(old(Snapshot()), Action.SetSessions(list))
    {
      sessions := list;
    }
  }
}
