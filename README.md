# Research assistant front end — a Dafny model

This project models the client side of an AI research assistant. A user
types a question. The form trims it and sends it to the research service.
While the answer is awaited, a progress panel walks through six scripted
research steps and counts the elapsed seconds. The answer is then shown
with a quality badge, the research plan, the sources and a date. A
history page lists recent sessions, filters them by a case-insensitive
search and opens one of them in the same result view.

Each part of the model:

- `Types` (types.dfy): the wire records — `Source`, `ResearchResponse`,
  `Session`, `SessionsResponse`, `ResearchRequest` — and `Outcome`, the
  settled result of an awaited call: a value, or a thrown `Error` carrying
  a message, or a thrown non-`Error`.
- `Text` (text.dfy): the string built-ins the components rely on. `trim`
  uses the ECMAScript white-space and line-terminator set.
  `toLowerCase` and `includes` are here too, as are the decimal rendering
  of a non-negative integer and `padStart`.
- `Api` (api.dfy): the HTTP client's interceptors. A failed request is
  rejected with one message, chosen by a fixed priority: time-out, then
  no response, then the status table.
- `ResearchStore` (research_store.dfy): the research store. It has a pure
  `State`, the `Action`s that change it and `Apply`. The class `Store`
  holds the same fields, and its methods are proved to follow `Apply`.
  Its invariant is that a loading store holds no result and no error.
- `SessionStore` (session_store.dfy): the session store, built the same
  way. It has the fetch with its error path, selection by id, and the two
  setters.
- `ResearchProgress` (research_progress.dfy): the progress panel, as a
  state machine. Its events are the `isActive` prop changing, the step
  timer firing and the one-second interval. The class `Progress` holds
  the component's state. The elapsed time is rendered as `m:ss`.
- `ResearchForm` (research_form.dfy): the submit handler, as a method on
  a research `Store`.
- `HistoryPage` (history_page.dfy): the search filter, the conversion of
  a selected session into a response, and the mount/Refresh fetch of 20
  sessions.
- `ResearchResult` and `SessionCard` (research_result.dfy,
  session_card.dfy): the quality bands, which sections are shown, and the
  truncation of the answer excerpt.

The network calls (`performResearch`, `getRecentSessions`) are parameters
of the methods that await them, as functions from the request to an
`Outcome`.

Four behaviours of the code are easy to miss:

- A selected session is a copy taken when it is selected. A later fetch
  replaces the list but not the selection, and the selection is not looked
  up again, so it can go stale (`SessionStore.SelectionCanGoStale`).
- `setError` clears the loading flag but keeps the previous result. A
  result and an error can therefore both be present after `setResult`
  followed by `setError` (`ResearchStore.SetErrorKeepsResult`).
- The client's `'An error occurred'` initial message is always
  overwritten, so no failure is reported with it (`Api.FailureMessage`).
- `fetchSessions` defaults to a limit of 10, but its only caller, the
  history page, always passes 20.

## Model

| member | source | states |
|---|---|---|
| Types.MessageOr | store/session-store.ts:29 | the message read from a thrown value is the `Error`'s own message, or the fallback exactly when something other than an `Error` was thrown |
| Text.TrimStart | components/research-form.tsx:19 | the result is a suffix of the input, the dropped prefix is all white space, and the result does not start with white space |
| Text.TrimEnd | components/research-form.tsx:27 | the result is a prefix of the input, the dropped suffix is all white space, and the result does not end with white space |
| Text.Trim | components/research-form.tsx:19-27 | `trim()` is never longer than its input and leaves no white space at either end |
| Text.TrimIsInnerSlice | components/research-form.tsx:27 | a trimmed string is a contiguous slice of the input with only white space cut from either end |
| Text.TrimEmptyIffBlank | components/research-form.tsx:19 | `trim()` is empty exactly when every character is white space |
| Text.TrimIdempotent | components/research-form.tsx:19-27 | trimming a trimmed question changes nothing |
| Text.Lower | app/history/page.tsx:28-29 | lower-casing keeps the length and maps each character on its own |
| Text.LowerIdempotent | app/history/page.tsx:28-29 | lower-casing twice is lower-casing once |
| Text.Includes | app/history/page.tsx:28-29 | the empty needle is in every text, and no needle is in a shorter text |
| Text.IncludesIffOccurs | app/history/page.tsx:28-29 | `includes` holds exactly when the needle occurs at some position of the text |
| Text.IncludesEmpty | app/history/page.tsx:28-29 | every text includes the empty string |
| Text.Decimal | lib/api.ts:68 | a number's decimal rendering is a non-empty digit string with no leading zero except for 0 itself |
| Text.DecimalRoundTrip | lib/api.ts:68 | reading the rendered digits back gives the number |
| Text.DecimalInjective | lib/api.ts:68 | different numbers render differently |
| Text.PadStart | components/research-progress.tsx:120 | `padStart` reaches at least the width, keeps the string as a suffix and fills only with the pad character |
| Api.StatusMessage | lib/api.ts:48-69 | exactly the statuses outside the table read `Error: ` followed by their digits; a status never gives the initial, time-out or network message |
| Api.FailureMessage | lib/api.ts:36-73 | the time-out message exactly for `ECONNABORTED`, the network message exactly for other failures with no response, otherwise the status message; never `An error occurred` |
| Api.InterceptRequest | lib/api.ts:13-25 | the request interceptor passes a configuration and a request error through unchanged |
| Api.InterceptResponse | lib/api.ts:28-73 | a delivered response passes through; every failure is rejected with an `Error` carrying the classified message |
| Api.FailureAlwaysRejectsWithMessage | lib/api.ts:36-73 | a caller's `instanceof Error` test always takes the message, never its own fallback |
| Api.KnownStatuses | lib/api.ts:51-66 | the five table statuses map to their fixed messages |
| Api.StatusMessageInjective | lib/api.ts:51-69 | different statuses get different messages |
| ResearchStore.Apply | store/research-store.ts:22-37 | only `startResearch` raises the loading flag, every action keeps "loading means no result and no error", and `reset` gives the initial state |
| ResearchStore.InitialIsIdle | store/research-store.ts:17-20 | the store starts with an empty question, not loading, no result and no error |
| ResearchStore.SetQuestionChangesOnlyQuestion | store/research-store.ts:22 | `setQuestion` replaces the question and nothing else |
| ResearchStore.StartResearchClears | store/research-store.ts:24 | `startResearch` sets loading, clears result and error, keeps the question and is idempotent |
| ResearchStore.SetResultSettles | store/research-store.ts:26-27 | `setResult` stores the response, stops loading, clears the error and keeps the question |
| ResearchStore.SetErrorKeepsResult | store/research-store.ts:29 | `setError` stores the message and stops loading but keeps the previous result, so result and error can coexist |
| ResearchStore.ResetIsInitial | store/research-store.ts:31-37 | `reset` returns to the initial state from any state and is idempotent |
| ResearchStore.StartThenSettle | store/research-store.ts:24-29 | starting and then settling leaves exactly the response or exactly the error |
| ResearchStore.RunPreservesClean | store/research-store.ts:17-37 | any sequence of actions keeps that invariant |
| ResearchStore.ReachableIsClean | store/research-store.ts:17-37 | every state reachable from the initial one satisfies the invariant |
| ResearchStore.RunTwo | store/research-store.ts:24-29 | running two actions applies them in order |
| ResearchStore.Store.constructor | store/research-store.ts:16-20 | a new store holds the initial state |
| ResearchStore.Store.SetQuestion | store/research-store.ts:22 | the new state is `setQuestion` applied to the old one; the invariant is kept |
| ResearchStore.Store.StartResearch | store/research-store.ts:24 | the new state is `startResearch` applied to the old one; the invariant is kept |
| ResearchStore.Store.SetResult | store/research-store.ts:26-27 | the new state is `setResult` applied to the old one; the invariant is kept |
| ResearchStore.Store.SetError | store/research-store.ts:29 | the new state is `setError` applied to the old one; the invariant is kept |
| ResearchStore.Store.Reset | store/research-store.ts:31-37 | the new state is the initial state, which satisfies the invariant |
| SessionStore.Apply | store/session-store.ts:24-43 | only a successful fetch and `setSessions` replace the list; a selection is a listed session with the id; a fetch raises loading when it starts and lowers it when it settles |
| SessionStore.Find | store/session-store.ts:35 | the result is a listed session with the id, and none exactly when no session has it |
| SessionStore.FirstIndexOf | store/session-store.ts:35 | the index of the first session with the id, or the length when there is none |
| SessionStore.FindIsFirstMatch | store/session-store.ts:35 | `find` returns the first session with the id, and nothing exactly when no session has it |
| SessionStore.InitialIsEmpty | store/session-store.ts:18-21 | the store starts with no sessions, not loading, no selection and no error |
| SessionStore.BeginFetchEffect | store/session-store.ts:24 | starting a fetch sets loading and clears the error, keeping sessions and selection |
| SessionStore.SuccessReplacesSessions | store/session-store.ts:26-27 | a successful fetch replaces the list with the response's sessions and stops loading |
| SessionStore.FailureKeepsSessions | store/session-store.ts:28-30 | a failed fetch keeps the list, stops loading and stores the error's message or the fixed fallback |
| SessionStore.SelectionIsMember | store/session-store.ts:34-37 | the selection is a listed session with the requested id, or none when the id is absent |
| SessionStore.SettersChangeOneField | store/session-store.ts:39-43 | `clearSelection`, `setLoading` and `setSessions` each change only their own field |
| SessionStore.SelectionCanGoStale | store/session-store.ts:27 | after a selection, a fetch that replaces the list leaves the old selection in place |
| SessionStore.Store.constructor | store/session-store.ts:17-21 | a new store holds the initial state |
| SessionStore.Store.BeginFetch | store/session-store.ts:24 | the new state is the fetch start applied to the old one |
| SessionStore.Store.SettleFetch | store/session-store.ts:25-31 | the new state is the settled fetch applied to the old one |
| SessionStore.Store.FetchSessions | store/session-store.ts:23-32 | the store passes through the start and then the settlement of one listing call with the given limit, ending not loading |
| SessionStore.Store.SelectSession | store/session-store.ts:34-37 | the selection becomes the first listed session with the id, or none |
| SessionStore.Store.ClearSelection | store/session-store.ts:39 | the selection becomes none; nothing else changes |
| SessionStore.Store.SetLoading | store/session-store.ts:41 | the loading flag becomes the argument; nothing else changes |
| SessionStore.Store.SetSessions | store/session-store.ts:43 | the list becomes the argument; nothing else changes |
| ResearchProgress.SetActive | components/research-progress.tsx:80-86 | the prop is taken over; activation resets index, completed steps and elapsed time and arms the step timer; deactivation cancels the timer and keeps the rest; an unchanged prop re-runs no effect and leaves the state as it was |
| ResearchProgress.FireStepTimer | components/research-progress.tsx:95-101 | a firing adds at most the current step's id, advances the index by at most one and never past the last step, keeps the elapsed time, and does nothing while inactive |
| ResearchProgress.Tick | components/research-progress.tsx:110-112 | the interval adds one second while active and changes nothing else |
| ResearchProgress.StatusFollowsIndex | components/research-progress.tsx:142-144 | in a reachable state every step before the current one is completed, and no pending step is |
| ResearchProgress.IsCompleted | components/research-progress.tsx:142 | `completedSteps.has(step.id)`; `StatusFollowsIndex` and `ExactlyOneStatus` give its meaning in a reachable state: exactly the steps before the index, plus the last after the final firing |
| ResearchProgress.IsCurrent | components/research-progress.tsx:143 | a current step is neither completed nor pending |
| ResearchProgress.IsPending | components/research-progress.tsx:144 | `index > currentStepIndex`; by `StatusFollowsIndex` and `ExactlyOneStatus` a pending step is never completed or current in a reachable state |
| ResearchProgress.StepTable | components/research-progress.tsx:24-67 | the six steps with their ids and durations, the ids all distinct |
| ResearchProgress.IdInFirstIds | components/research-progress.tsx:24-67 | a step's id is among the first k ids exactly when its index is below k |
| ResearchProgress.ActivationResets | components/research-progress.tsx:80-86 | turning the panel on resets the step index, completed steps and elapsed time to zero |
| ResearchProgress.InactiveIsFrozen | components/research-progress.tsx:89-123 | an inactive panel ignores timers and intervals and renders nothing |
| ResearchProgress.Renders | components/research-progress.tsx:123 | the panel renders only while active; `InactiveIsFrozen` states that an inactive panel renders nothing |
| ResearchProgress.TickCounts | components/research-progress.tsx:107-115 | each interval tick of an active panel adds one second |
| ResearchProgress.FiringAdvances | components/research-progress.tsx:95-101 | a step timer marks the current step completed and advances the index, except at the last step |
| ResearchProgress.FiringsFromActivation | components/research-progress.tsx:89-104 | after k step timers from activation, exactly the first k steps are completed and the index is min(k, 5) |
| ResearchProgress.AllDoneAfterSixFirings | components/research-progress.tsx:89-104 | after six firings all steps are completed, the index stays at the last step and further timers change nothing |
| ResearchProgress.FiredBy | components/research-progress.tsx:92-101 | how many steps have completed t milliseconds after activation, by the cumulative durations |
| ResearchProgress.ReachableInitially | components/research-progress.tsx:74-86 | the mounted panel, active or not, is in a reachable state |
| ResearchProgress.Mount | components/research-progress.tsx:75-77 | the first render: index 0, no completed steps, no elapsed time, and the step timer scheduled exactly when active; `ReachableInitially` shows it is a reachable state |
| ResearchProgress.HandlePreservesReachable | components/research-progress.tsx:80-115 | every event keeps the panel reachable: completed steps are exactly the first ids and the index is in range |
| ResearchProgress.RunKeepsReachable | components/research-progress.tsx:80-115 | any sequence of events keeps the panel reachable |
| ResearchProgress.ExactlyOneStatus | components/research-progress.tsx:140-144 | in a reachable state each step is exactly one of completed, current or pending |
| ResearchProgress.FormatTime | components/research-progress.tsx:117-121 | the display reads back as the elapsed seconds, its two-digit seconds part is below 60, and the minutes carry no leading zero (a leading `0` means exactly `0:ss`) |
| ResearchProgress.Display | components/research-progress.tsx:118-120 | minutes written without leading zeros, a colon and two digits of seconds, which read back as minutes * 60 + seconds |
| ResearchProgress.TwoDigits | components/research-progress.tsx:120 | the padded seconds are always exactly two digits |
| ResearchProgress.FormatTimeInjective | components/research-progress.tsx:117-121 | different elapsed times render differently |
| ResearchProgress.Progress.constructor | components/research-progress.tsx:74-86 | a mounted panel starts at step 0 with nothing completed and no time elapsed |
| ResearchProgress.Progress.SetActive | components/research-progress.tsx:80-86 | the new state is the prop change applied to the old one; reachability is kept |
| ResearchProgress.Progress.FireStepTimer | components/research-progress.tsx:89-104 | the new state is a step timer firing on the old one; reachability is kept |
| ResearchProgress.Progress.Tick | components/research-progress.tsx:107-115 | the new state is an interval tick on the old one; reachability is kept |
| ResearchForm.IsBlank | components/research-form.tsx:19 | a query is blank exactly when it is white space only |
| ResearchForm.SubmitDisabled | components/research-form.tsx:53 | the submit button is enabled exactly when nothing is loading and the query has a non-white-space character |
| ResearchForm.SettleAction | components/research-form.tsx:26-33 | a settled call leads to `setResult` or to `setError` |
| ResearchForm.SubmitActionsShape | components/research-form.tsx:19-32 | a blank query performs no action; any other performs `startResearch` then one of `setResult` or `setError`, matching the outcome |
| ResearchForm.SubmitActions | components/research-form.tsx:19-32 | the store actions a submission performs; `SubmitActionsShape` fixes their number, order and kind, and `SubmitSettles` what they leave in the store |
| ResearchForm.SubmitSettles | components/research-form.tsx:24-32 | a submission ends not loading, with the response and no error, or no result and the error's message or `Research failed` |
| ResearchForm.EnabledMeansSent | components/research-form.tsx:51-53 | an enabled submit button means the query is not blank, so a click sends a request |
| ResearchForm.ClientFailureShowsClassifiedMessage | components/research-form.tsx:30-32 | a failure from the HTTP client shows the client's classified message |
| ResearchForm.HandleSubmit | components/research-form.tsx:16-35 | a blank query sends nothing and leaves the store alone; otherwise the trimmed question is sent with the cache on and the store follows the submit actions |
| HistoryPage.RefreshBlockedWhileFetching | app/history/page.tsx:78-79 | Refresh is disabled from the start of a fetch until it settles, whichever way |
| HistoryPage.RefreshDisabled | app/history/page.tsx:79 | `disabled={isLoading}`; `RefreshBlockedWhileFetching` shows Refresh is disabled from the start of a fetch until it settles |
| HistoryPage.Matches | app/history/page.tsx:27-30 | an empty query matches every session, and a match needs the query to fit in the question or the answer |
| HistoryPage.FilterSessions | app/history/page.tsx:27-30 | the filtered list is no longer than the list and holds only listed sessions that match; with `FilterIsSubsequence` and `FilterCounts` it is exactly the matching occurrences in their order |
| HistoryPage.FilterIsSubsequence | app/history/page.tsx:27-30 | the filtered list keeps the sessions' order |
| HistoryPage.FilterMembership | app/history/page.tsx:27-30 | a session is shown exactly when it is listed and its lower-cased question or answer contains the lower-cased query |
| HistoryPage.FilterCounts | app/history/page.tsx:27-30 | every occurrence of a matching session is kept and every occurrence of the others dropped, so duplicates are kept as often as they are listed |
| HistoryPage.EmptyQueryKeepsAll | app/history/page.tsx:27-30 | an empty search shows every session |
| HistoryPage.FilterIgnoresCase | app/history/page.tsx:27-30 | queries that lower-case alike give the same list |
| HistoryPage.ConvertToResearchResponse | app/history/page.tsx:36-47 | no selection gives no response; a selection gives its answer, score, iterations, plan, sources, id and creation time |
| HistoryPage.ConvertedSelectionKeepsId | app/history/page.tsx:32-47 | the converted selection has the clicked id, and is none exactly when no listed session has it |
| HistoryPage.ConvertedShowsDate | app/history/page.tsx:45 | a converted session with a non-empty creation time shows the date badge |
| HistoryPage.LoadHistory | app/history/page.tsx:23-25 | mounting and Refresh fetch with limit 20 and end not loading |
| HistoryPage.ClientFailureShowsClassifiedMessage | store/session-store.ts:28-30 | a failed listing shows the HTTP client's message and keeps the previous list |
| ResearchResult.QualityColor | components/research-result.tsx:23-27 | green exactly from 80, yellow exactly from 60 below 80, red exactly below 60 |
| ResearchResult.QualityLabel | components/research-result.tsx:29-33 | High exactly from 80, Medium exactly from 60 below 80, Low exactly below 60 |
| ResearchResult.ColorAgreesWithLabel | components/research-result.tsx:23-33 | the badge colour and the label use the same bands |
| ResearchResult.TierMonotone | components/research-result.tsx:23-33 | a higher score never gets a lower tier |
| ResearchResult.PlanSection | components/research-result.tsx:73-87 | the plan shows exactly when truthy: a non-empty text as one paragraph, any list (even empty) item by item |
| ResearchResult.SourcesSection | components/research-result.tsx:121-146 | sources show exactly when present and non-empty, one entry per source in order, each with its snippet only when truthy |
| ResearchResult.DateBadge | components/research-result.tsx:60-65 | the date badge shows exactly when the creation time is present and non-empty |
| ResearchResult.ScoreEightyFiveIsHigh | components/research-result.tsx:23-33 | a score of 85 is labelled High Quality and coloured green |
| SessionCard.QualityColor | components/session-card.tsx:16-20 | the card colours every score as the result view does |
| SessionCard.TruncateText | components/session-card.tsx:22-25 | text that fits is unchanged; longer text becomes its first maxLength characters and `...` |
| SessionCard.TruncateBounds | components/session-card.tsx:22-25 | the excerpt is at most maxLength + 3 long, and is the text itself when at most maxLength |
| SessionCard.EmptyAnswerEmptyExcerpt | components/session-card.tsx:42 | an empty answer gives an empty excerpt |
| SessionCard.AnswerExcerpt | components/session-card.tsx:42 | the card shows the answer truncated to 150 characters; `TruncateBounds` bounds its length and `EmptyAnswerEmptyExcerpt` gives the empty case |

## Left out

- The HTTP client's base URL, two-minute time-out, JSON header and transport: a request either delivers a response or fails with a code and an optional status, and nothing else about it is modelled.
- The development-mode console logging in both interceptors, and `NODE_ENV`.
- `performResearch` and `getRecentSessions` (lib/api-functions.ts is not part of this model): they are parameters returning an `Outcome`. The request body is the `ResearchRequest` record with the cache flag on.
- Api.InterceptRequest: the request-error handler logs and re-rejects the same error. This is modelled as passing the outcome through unchanged.
- Real timers, the event loop and interleaving: timers and intervals are events applied one at a time. Two overlapping submissions or fetches (last write wins) are not modelled.
- ResearchProgress.FiredBy: it assumes every step timer fires exactly its duration after the previous one, with no render latency.
- The progress panel's unused `onComplete` prop, its icons and its CSS classes.
- Rendering in general: JSX, CSS classes, markdown, toasts, the copy-to-clipboard button and its `copied` flag, and `date-fns` date formatting (the badge is modelled only as shown or hidden, with its raw value).
- The home page (app/page.tsx), the navigation bar and the loading skeleton are not part of this model.
- SessionStore.Store.FetchSessions: the limit is a required argument; the default of 10 (store/session-store.ts:23) is not modelled, because the only caller passes 20.
- Text.Lower: it lower-cases ASCII letters only. Full Unicode `toLowerCase` (special casings, locale-free mappings beyond ASCII) is not modelled.
- Text.IsWhitespace: it fixes the ECMAScript white-space set as the Unicode space separators of the current standard.
- SessionCard.TruncateText: it counts Unicode scalar values. JavaScript counts UTF-16 code units, so the two differ for characters outside the Basic Multilingual Plane.
- Quality scores are integers: fractional scores are not modelled. HTTP statuses are non-negative integers.
- The `?.` and `|| ''` guards on a session's question and answer are identities here, because the wire types declare both as required strings.
