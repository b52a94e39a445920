/**
 * The interceptors installed on the shared HTTP client (lib/api.ts).
 * Outgoing request configurations and successful responses pass through
 * unchanged; every failed response is turned into a rejection carrying an
 * `Error` whose message classifies the failure.
 */
module Api {
  import opened Types
  import Text

  /** The part of a received HTTP response the error interceptor inspects. */
  datatype HttpResponse = HttpResponse(status: nat)

  /** A transport failure: an optional error code, and the response if one was received. */
  datatype HttpFailure = HttpFailure(code: Option<string>, response: Option<HttpResponse>)

  /** What the transport hands to the response interceptors. */
  datatype Transport<+R> = Delivered(response: R) | Failed(failure: HttpFailure)

  const TimeoutCode := "ECONNABORTED"
  const TimeoutMessage := "Request timed out. Please try again."
  const NetworkMessage := "Network error. Please check your connection."
  /** The value `message` starts with before the status switch overwrites it. */
  const UnclassifiedMessage := "An error occurred"
  const StatusPrefix := "Error: "

  /** The statuses the switch of the error interceptor names. */
  predicate InTable(status: nat) {
    status == 400 || status == 401 || status == 403 || status == 404 || status == 500
  }

  /**
   * The status switch of the error interceptor. Only the statuses outside
   * the table read "Error: " followed by their digits, and a status message
   * is never the initial, the time-out or the network message.
   */
  function StatusMessage(status: nat): (m: string)
    ensures InTable(status) <==> !(StatusPrefix <= m)
    ensures !InTable(status) ==> |StatusPrefix| <= |m| && m[|StatusPrefix|..] == Text.Decimal(status)
    ensures m != UnclassifiedMessage && m != TimeoutMessage && m != NetworkMessage
  {
    var m := match status
      case 400 => "Invalid request. Please check your input."
      case 401 => "Unauthorized. Please log in."
      case 403 => "Access forbidden."
      case 404 => "Resource not found."
      case 500 => "Server error. Please try again later."
      case _ => StatusPrefix + Text.Decimal(status);
    assert InTable(status) ==> m[0] != StatusPrefix[0];
    assert !InTable(status) ==> m[..|StatusPrefix|] == StatusPrefix;
    assert m[0] != NetworkMessage[0];
    m
  }

  /**
   * The message of the error interceptor: timeout first, then "no response",
   * then the status. Each kind has its own message, and the initial
   * "An error occurred" is never the result.
   */
  function FailureMessage(f: HttpFailure): (m: string)
    ensures m == TimeoutMessage <==> f.code == Some(TimeoutCode)
    ensures m == NetworkMessage <==> f.code != Some(TimeoutCode) && f.response.None?
    ensures f.code != Some(TimeoutCode) && f.response.Some? ==> m == StatusMessage(f.response.value.status)
    ensures m != UnclassifiedMessage
  {
    if f.code == Some(TimeoutCode) then TimeoutMessage
    else if f.response.None? then NetworkMessage
    else StatusMessage(f.response.value.status)
  }

  /** The request interceptor: a configuration is returned as it is, an error is rejected as it is. */
  function InterceptRequest<C>(config: Outcome<C>): (r: Outcome<C>)
    ensures r == config
  {
    match config
    case Ok(c) => Ok(c)
    case Threw(t) => Threw(t)
  }

  /** The response interceptor: responses pass through, every failure becomes a rejected `Error`. */
  function InterceptResponse<R>(t: Transport<R>): (r: Outcome<R>)
    ensures t.Delivered? ==> r == Ok(t.response)
    ensures t.Failed? ==> r.Threw? && r.thrown == ErrorObject(FailureMessage(t.failure))
  {
    match t
    case Delivered(response) => Ok(response)
    case Failed(f) => Threw(ErrorObject(FailureMessage(f)))
  }

  /** A failure is never turned into a success, and its `Error` message is what a `catch` reads, whatever the fallback. */
  lemma FailureAlwaysRejectsWithMessage<R>(f: HttpFailure, fallback: string)
    ensures InterceptResponse<R>(Failed(f)).Threw?
    ensures MessageOr(InterceptResponse<R>(Failed(f)).thrown, fallback) == FailureMessage(f)
  {
  }

  /** The five statuses of the table have their fixed messages. */
  lemma KnownStatuses()
    ensures StatusMessage(400) == "Invalid request. Please check your input."
    ensures StatusMessage(401) == "Unauthorized. Please log in."
    ensures StatusMessage(403) == "Access forbidden."
    ensures StatusMessage(404) == "Resource not found."
    ensures StatusMessage(500) == "Server error. Please try again later."
  {
  }

  /** Distinct statuses yield distinct messages. */
  lemma StatusMessageInjective(a: nat, b: nat)
    requires StatusMessage(a) == StatusMessage(b)
    ensures a == b
  {
    if !InTable(a) && !InTable(b) {
      Text.DecimalInjective(a, b);
    }
  }
}
