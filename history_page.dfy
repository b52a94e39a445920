/**
 * The history page (app/history/page.tsx): it fetches the 20 most recent
 * sessions on mount and on Refresh, filters them by a case-insensitive
 * search over question and answer, and converts the selected session into
 * a research response for the detail dialog.
 */
module HistoryPage {
  import opened Types
  import Text
  import SS = SessionStore
  import Api
  import RR = ResearchResult

  /** The limit both the mount fetch and Refresh ask for. */
  const HistoryLimit := 20

  /** Refresh is disabled while a fetch is loading. */
  predicate RefreshDisabled(isLoading: bool) {
    isLoading
  }

  /**
   * Refresh is disabled from the moment a fetch starts until it settles,
   * whichever way it settles.
   */
  lemma RefreshBlockedWhileFetching(s: SS.State, outcome: Outcome<SessionsResponse>)
    ensures RefreshDisabled(SS.Apply(s, SS.BeginFetch).isLoading)
    ensures !RefreshDisabled(SS.Apply(SS.Apply(s, SS.BeginFetch), SS.SettleFetch(outcome)).isLoading)
  {
  }

  /**
   * The filter callback: the lower-cased query occurs in the lower-cased
   * question or in the lower-cased answer.
   */
  predicate Matches(session: Session, query: string)
    ensures query == [] ==> Matches(session, query)
    ensures Matches(session, query) ==> |query| <= |session.question| || |query| <= |session.answer|
  {
    Text.Includes(Text.Lower(session.question), Text.Lower(query))
    || Text.Includes(Text.Lower(session.answer), Text.Lower(query))
  }

  /** `sessions.filter(...)`: only listed sessions that match, never more than the list. */
  function FilterSessions(sessions: seq<Session>, query: string): (r: seq<Session>)
    ensures |r| <= |sessions|
    ensures forall i :: 0 <= i < |r| ==> r[i] in sessions && Matches(r[i], query)
    decreases |sessions|
  {
    if sessions == [] then []
    else if Matches(sessions[0], query) then [sessions[0]] + FilterSessions(sessions[1..], query)
    else FilterSessions(sessions[1..], query)
  }

  /** xs can be obtained from ys by deleting elements, keeping the order of the rest. */
  predicate IsSubsequence<T(==)>(xs: seq<T>, ys: seq<T>)
    decreases |ys|
  {
    xs == [] || (ys != [] && ((xs[0] == ys[0] && IsSubsequence(xs[1..], ys[1..])) || IsSubsequence(xs, ys[1..])))
  }

  /** The filtered list keeps the original order: it is a subsequence of the sessions. */
  lemma {:induction false} FilterIsSubsequence(sessions: seq<Session>, query: string)
    ensures IsSubsequence(FilterSessions(sessions, query), sessions)
    decreases |sessions|
  {
    if sessions != [] {
      FilterIsSubsequence(sessions[1..], query);
      if Matches(sessions[0], query) {
        assert ([sessions[0]] + FilterSessions(sessions[1..], query))[1..] == FilterSessions(sessions[1..], query);
      }
    }
  }

  /**
   * The filter keeps every occurrence of a matching session and drops every
   * occurrence of the others, so duplicates in the list survive as often as
   * they appear.
   */
  lemma {:induction false} FilterCounts(sessions: seq<Session>, query: string, x: Session)
    ensures multiset(FilterSessions(sessions, query))[x]
         == if Matches(x, query) then multiset(sessions)[x] else 0
    decreases |sessions|
  {
    if sessions != [] {
      FilterCounts(sessions[1..], query, x);
      assert sessions == [sessions[0]] + sessions[1..];
    }
  }

  /** A session is in the filtered list exactly when it is in the list and matches the query. */
  lemma {:induction false} FilterMembership(sessions: seq<Session>, query: string, x: Session)
    ensures x in FilterSessions(sessions, query) <==> x in sessions && Matches(x, query)
    decreases |sessions|
  {
    if sessions != [] {
      FilterMembership(sessions[1..], query, x);
      assert sessions == [sessions[0]] + sessions[1..];
    }
  }

  /** An empty search keeps every session, in order. */
  lemma {:induction false} EmptyQueryKeepsAll(sessions: seq<Session>)
    ensures FilterSessions(sessions, "") == sessions
    decreases |sessions|
  {
    if sessions != [] {
      Text.IncludesEmpty(Text.Lower(sessions[0].question));
      EmptyQueryKeepsAll(sessions[1..]);
    }
  }

  /** Queries that lower-case alike give the same filtered list. */
  lemma {:induction false} FilterIgnoresCase(sessions: seq<Session>, q1: string, q2: string)
    requires Text.Lower(q1) == Text.Lower(q2)
    ensures FilterSessions(sessions, q1) == FilterSessions(sessions, q2)
    decreases |sessions|
  {
    if sessions != [] {
      FilterIgnoresCase(sessions[1..], q1, q2);
    }
  }

  /**
   * `convertToResearchResponse`: nothing for no selection; otherwise the
   * response fields copied from the session (question and completion time
   * are dropped; the always-present creation time becomes optional).
   */
  function ConvertToResearchResponse(selected: Option<Session>): (r: Option<ResearchResponse>)
    ensures selected.None? <==> r.None?
    ensures r.Some? ==>
      && r.value.answer == selected.value.answer
      && r.value.qualityScore == selected.value.qualityScore
      && r.value.iterations == selected.value.iterations
      && r.value.researchPlan == selected.value.researchPlan
      && r.value.sources == selected.value.sources
      && r.value.sessionId == selected.value.sessionId
      && r.value.createdAt == Some(selected.value.createdAt)
  {
    match selected
    case None => None
    case Some(s) =>
      Some(ResearchResponse(s.answer, s.qualityScore, s.iterations, s.researchPlan, s.sources, s.sessionId, Some(s.createdAt)))
  }

  /** Converting what `selectSession(id)` picked gives a response for that id. */
  lemma ConvertedSelectionKeepsId(sessions: seq<Session>, id: string)
    ensures var r := ConvertToResearchResponse(SS.Find(sessions, id));
      r.Some? ==> r.value.sessionId == id
    ensures ConvertToResearchResponse(SS.Find(sessions, id)).None? <==>
      forall j :: 0 <= j < |sessions| ==> sessions[j].sessionId != id
  {
    SS.FindIsFirstMatch(sessions, id);
  }

  /** A converted session always carries its creation time, so the detail dialog shows the date badge unless it is empty. */
  lemma ConvertedShowsDate(session: Session)
    requires session.createdAt != ""
    ensures var r := ConvertToResearchResponse(Some(session));
      r.Some? && RR.DateBadge(r.value) == Some(session.createdAt)
  {
  }

  /** The mount effect and the Refresh button: fetch the 20 most recent sessions. */
  method LoadHistory(store: SS.Store, listRecent: int -> Outcome<SessionsResponse>)
    modifies store
    ensures !store.isLoading
    ensures store.Snapshot()
         == SS.Apply(SS.Apply(old(store.Snapshot()), SS.BeginFetch), SS.SettleFetch(listRecent(HistoryLimit)))
  {
    store.FetchSessions(HistoryLimit, listRecent);
  }

  /**
   * Through the HTTP client every failed listing reaches the store as an
   * `Error`: the page shows the client's classified message and keeps the
   * previous list.
   */
  lemma ClientFailureShowsClassifiedMessage(s: SS.State, f: Api.HttpFailure)
    ensures var t := SS.Apply(SS.Apply(s, SS.BeginFetch), SS.SettleFetch(Api.InterceptResponse(Api.Failed(f))));
      t.error == Some(Api.FailureMessage(f)) && t.sessions == s.sessions && !t.isLoading
  {
  }
}
