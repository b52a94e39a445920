/**
 * Data shapes shared by the stores and components (types/index.ts), plus the
 * two small wrappers the model needs: an optional value (TypeScript's `T | null`
 * and optional properties) and the settled result of an awaited call.
 */
module Types {

  /** `T | null`, or an optional property that may be absent. */
  datatype Option<+T> = None | Some(value: T)

  /** One cited source of an answer. */
  datatype Source = Source(title: string, url: string, snippet: Option<string>)

  /** `research_plan?: string | string[]`: the backend sends either one text or a list of steps. */
  datatype ResearchPlan = PlanText(text: string) | PlanSteps(steps: seq<string>)

  /** The body of a successful research call. */
  datatype ResearchResponse = ResearchResponse(
    answer: string,
    qualityScore: int,
    iterations: int,
    researchPlan: Option<ResearchPlan>,
    sources: Option<seq<Source>>,
    sessionId: string,
    createdAt: Option<string>)

  /** A stored research session as the history listing returns it. */
  datatype Session = Session(
    sessionId: string,
    question: string,
    answer: string,
    qualityScore: int,
    iterations: int,
    researchPlan: Option<ResearchPlan>,
    sources: Option<seq<Source>>,
    createdAt: string,
    completedAt: Option<string>)

  /** The body of the recent-sessions listing. */
  datatype SessionsResponse = SessionsResponse(sessions: seq<Session>, total: int)

  /** The body posted to the research endpoint. */
  datatype ResearchRequest = ResearchRequest(question: string, useCache: bool)

  /**
   * What a `catch` clause receives: an `Error` instance carrying a message,
   * or some other thrown value.
   */
  datatype Thrown = ErrorObject(message: string) | NonError

  /** How an awaited call settles: fulfilled with a value, or rejected with a thrown value. */
  datatype Outcome<+T> = Ok(value: T) | Threw(thrown: Thrown)

  /** `error instanceof Error ? error.message : fallback` */
  function MessageOr(thrown: Thrown, fallback: string): (m: string)
    ensures thrown == ErrorObject(m) || (thrown.NonError? && m == fallback)
  {
    match thrown
    case ErrorObject(message) => message
    case NonError => fallback
  }
}
