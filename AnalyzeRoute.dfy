/**
 * The clinical-analysis endpoint (src/app/api/analyze/route.ts): a fixed-window rate limiter
 * over a per-client map, then a ladder of early returns, each with its own error code and
 * HTTP status. The clock, the request id, the API key and the outcome of the external
 * analysis call are parameters.
 */
module AnalyzeRoute {
  import opened Wrappers
  import opened Medical

  const RateLimit: nat := 10
  const RateLimitWindow: nat := 60000

  /** One client's window: calls counted so far and the instant the window ends. */
  datatype RateWindow = RateWindow(count: nat, resetTime: int)

  datatype RateDecision = RateDecision(allowed: bool, store: map<string, RateWindow>)

  /**
   * `checkRateLimit` on a store snapshot. A client with no entry or with an expired window
   * gets a fresh window holding this call; a full window refuses and changes nothing;
   * otherwise the call is counted. Only the client's own entry can change.
   */
  function RateStep(store: map<string, RateWindow>, clientId: string, now: int): (d: RateDecision)
    ensures clientId in d.store
    ensures forall k :: k != clientId ==> (k in d.store <==> k in store)
    ensures forall k :: k != clientId && k in store ==> d.store[k] == store[k]
    ensures clientId !in store || now > store[clientId].resetTime ==>
              d.allowed && d.store[clientId] == RateWindow(1, now + RateLimitWindow)
    ensures clientId in store && now <= store[clientId].resetTime ==>
              (d.allowed <==> store[clientId].count < RateLimit)
    ensures clientId in store && now <= store[clientId].resetTime && store[clientId].count >= RateLimit ==>
              d.store == store
    ensures clientId in store && now <= store[clientId].resetTime && store[clientId].count < RateLimit ==>
              d.store[clientId] == store[clientId].(count := store[clientId].count + 1)
  {
    if clientId !in store || now > store[clientId].resetTime then
      RateDecision(true, store[clientId := RateWindow(1, now + RateLimitWindow)])
    else if store[clientId].count >= RateLimit then
      RateDecision(false, store)
    else
      RateDecision(true, store[clientId := store[clientId].(count := store[clientId].count + 1)])
  }

  /** The in-memory `rateLimitStore`, shared by every request the server process handles. */
  class RateLimiter {
    var store: map<string, RateWindow>

    constructor ()
      ensures store == map[]
    {
      store := map[];
    }

    /** `checkRateLimit(clientId)` at time `now`: looks up, then sets or increments the entry. */
    method CheckRateLimit(clientId: string, now: int) returns (allowed: bool)
      modifies this
      ensures allowed == RateStep(old(store), clientId, now).allowed
      ensures store == RateStep(old(store), clientId, now).store
    {
      var clientLimit: Option<RateWindow> := if clientId in store then Some(store[clientId]) else None;
      if clientLimit.None? || now > clientLimit.value.resetTime {
        store := store[clientId := RateWindow(1, now + RateLimitWindow)];
        return true;
      }
      if clientLimit.value.count >= RateLimit {
        return false;
      }
      store := store[clientId := clientLimit.value.(count := clientLimit.value.count + 1)];
      allowed := true;
    }
  }

  /** The decisions and final store after one client calls at each of `times`, in order. */
  function RunCalls(store: map<string, RateWindow>, clientId: string, times: seq<int>): (r: (seq<bool>, map<string, RateWindow>))
    ensures |r.0| == |times|
    decreases |times|
  {
    if times == [] then ([], store)
    else
      var d := RateStep(store, clientId, times[0]);
      var rest := RunCalls(d.store, clientId, times[1..]);
      ([d.allowed] + rest.0, rest.1)
  }

  /**
   * Inside an open window that already holds `count` calls and ends at `resetTime`, calls
   * made no later than `resetTime` are allowed until the window holds ten, and refused after.
   */
  lemma {:induction false} OpenWindowRun(store: map<string, RateWindow>, clientId: string, times: seq<int>)
    requires clientId in store
    requires forall i :: 0 <= i < |times| ==> times[i] <= store[clientId].resetTime
    ensures forall i :: 0 <= i < |times| ==>
              (RunCalls(store, clientId, times).0[i] <==> store[clientId].count + i < RateLimit)
    ensures clientId in RunCalls(store, clientId, times).1
    ensures RunCalls(store, clientId, times).1[clientId].resetTime == store[clientId].resetTime
  {
    if times != [] {
      var d := RateStep(store, clientId, times[0]);
      assert d.store[clientId].resetTime == store[clientId].resetTime;
      OpenWindowRun(d.store, clientId, times[1..]);
      var r := RunCalls(store, clientId, times);
      forall i | 0 <= i < |times|
        ensures r.0[i] <==> store[clientId].count + i < RateLimit
      {
        if i > 0 {
          assert r.0[i] == RunCalls(d.store, clientId, times[1..]).0[i - 1];
          if store[clientId].count >= RateLimit {
            assert d.store[clientId].count == store[clientId].count;
          } else {
            assert d.store[clientId].count == store[clientId].count + 1;
          }
        }
      }
    }
  }

  /**
   * Within one window a client is allowed at most ten times: starting from no entry (or an
   * expired one), the calls made up to 60000 ms after the first are allowed exactly for
   * the first ten. In particular a call at exactly `resetTime` still belongs to the window.
   */
  lemma WindowAllowsAtMostTen(store: map<string, RateWindow>, clientId: string, times: seq<int>)
    requires times != []
    requires clientId !in store || times[0] > store[clientId].resetTime
    requires forall i :: 0 <= i < |times| ==> times[i] <= times[0] + RateLimitWindow
    ensures forall i :: 0 <= i < |times| ==> (RunCalls(store, clientId, times).0[i] <==> i < RateLimit)
  {
    var d := RateStep(store, clientId, times[0]);
    OpenWindowRun(d.store, clientId, times[1..]);
    var r := RunCalls(store, clientId, times);
    forall i | 0 < i < |times|
      ensures r.0[i] <==> i < RateLimit
    {
      assert r.0[i] == RunCalls(d.store, clientId, times[1..]).0[i - 1];
    }
  }

  /** The client key: `x-forwarded-for || x-real-ip || 'anonymous'` (an empty header is falsy). */
  function ClientId(forwardedFor: Option<string>, realIp: Option<string>): (r: string)
    ensures r != ""
    ensures forwardedFor.Some? && forwardedFor.value != "" ==> r == forwardedFor.value
    ensures !(forwardedFor.Some? && forwardedFor.value != "") && realIp.Some? && realIp.value != "" ==>
              r == realIp.value
    ensures r == "anonymous" <==>
              (forwardedFor.Some? && forwardedFor.value == "anonymous") ||
              (!(forwardedFor.Some? && forwardedFor.value != "") &&
               ((realIp.Some? && realIp.value == "anonymous") || !(realIp.Some? && realIp.value != "")))
  {
    if forwardedFor.Some? && forwardedFor.value != "" then forwardedFor.value
    else if realIp.Some? && realIp.value != "" then realIp.value
    else "anonymous"
  }

  /** A `patient` field as the route sees it: missing or falsy, or a patient record. */
  datatype PatientField = NoPatient | PatientValue(patient: Patient)

  /**
   * The request body: one that fails to parse (or to destructure, such as a JSON `null`)
   * carries the thrown message; a parsed body has its four fields, `None` for falsy ones.
   */
  datatype AnalyzeBody =
    | Unparsable(message: string)
    | Parsed(patient: PatientField, encounter: Option<ClinicalEncounter>,
             history: Option<MedicalHistory>, labResults: Option<seq<LaboratoryPanel>>)

  /** The arguments `performClinicalAnalysis` is called with (the key is left out). */
  datatype AnalysisCall = AnalysisCall(
    patient: Patient,
    encounter: ClinicalEncounter,
    history: Option<MedicalHistory>,
    labResults: seq<LaboratoryPanel>)

  /** What the external analysis does when called: a result, or a throw (with `Error.message`, or of a non-Error). */
  datatype AnalysisOutcome = Analyzed(analysis: DiagnosticAnalysis) | Threw(errorMessage: Option<string>)

  datatype ErrorCode = RateLimitExceeded | InvalidRequest | ConsentRequired | ConfigurationError | AnalysisFailed

  datatype AnalysisResponse =
    | Success(analysis: DiagnosticAnalysis, processingTimeMs: int, requestId: string)
    | Failure(code: ErrorCode, message: string, originalError: Option<string>,
              processingTimeMs: int, requestId: string)

  /** The wire name of each error code. */
  function CodeName(c: ErrorCode): (name: string)
    ensures name != ""
  {
    match c
    case RateLimitExceeded => "RATE_LIMIT_EXCEEDED"
    case InvalidRequest => "INVALID_REQUEST"
    case ConsentRequired => "CONSENT_REQUIRED"
    case ConfigurationError => "CONFIGURATION_ERROR"
    case AnalysisFailed => "ANALYSIS_FAILED"
  }

  /** No two error codes share a wire name, so a client can tell every failure apart. */
  lemma CodeNamesDistinct(a: ErrorCode, b: ErrorCode)
    ensures CodeName(a) == CodeName(b) ==> a == b
  {
  }

  /**
   * The HTTP status of each response: 200 exactly on success, 429 for the rate limit, 400
   * for a bad request, 403 for missing consent, and a server error for the rest.
   */
  function Status(r: AnalysisResponse): (s: int)
    ensures s == 200 <==> r.Success?
    ensures 400 <= s < 500 <==> r.Failure? && r.code in {RateLimitExceeded, InvalidRequest, ConsentRequired}
    ensures s == 500 <==> r.Failure? && r.code in {ConfigurationError, AnalysisFailed}
    ensures r.Failure? && r.code == RateLimitExceeded <==> s == 429
    ensures r.Failure? && r.code == InvalidRequest <==> s == 400
    ensures r.Failure? && r.code == ConsentRequired <==> s == 403
  {
    match r
    case Success(_, _, _) => 200
    case Failure(code, _, _, _, _) =>
      match code
      case RateLimitExceeded => 429
      case InvalidRequest => 400
      case ConsentRequired => 403
      case ConfigurationError => 500
      case AnalysisFailed => 500
  }

  /** `process.env.GEMINI_API_KEY` is truthy. */
  predicate KeyPresent(apiKey: Option<string>) {
    apiKey.Some? && apiKey.value != ""
  }

  /** The response `POST` returns, and the analysis call it made, if any. */
  datatype Handled = Handled(response: AnalysisResponse, call: Option<AnalysisCall>)

  /** Every check before the analysis call passes. */
  predicate Admissible(allowed: bool, body: AnalyzeBody, apiKey: Option<string>) {
    && allowed
    && body.Parsed?
    && body.patient.PatientValue?
    && body.encounter.Some?
    && body.patient.patient.consentGiven
    && KeyPresent(apiKey)
  }

  /** The user-facing message that goes with each error code. */
  function FailureText(code: ErrorCode): string {
    match code
    case RateLimitExceeded => "Too many requests. Please wait before trying again."
    case InvalidRequest => "Patient and encounter data are required."
    case ConsentRequired => "Patient consent is required for AI analysis."
    case ConfigurationError => "AI service is not properly configured."
    case AnalysisFailed => "Failed to complete clinical analysis. Please try again."
  }

  /**
   * The ladder of `POST` after the rate-limit decision `allowed`: 429, body parse, 400, 403,
   * 500 configuration, then the analysis, with any throw turned into ANALYSIS_FAILED.
   */
  function Respond(allowed: bool, body: AnalyzeBody, apiKey: Option<string>, outcome: AnalysisOutcome,
                   elapsed: int, requestId: string): (h: Handled)
    ensures h.response.processingTimeMs == elapsed && h.response.requestId == requestId
    ensures !allowed ==> h.call == None && h.response.Failure? && h.response.code == RateLimitExceeded
    ensures h.call.Some? <==> Admissible(allowed, body, apiKey)
    ensures h.call.Some? ==>
              && h.call.value.labResults == body.labResults.GetOr([])
              && h.call.value.patient == body.patient.patient
              && Some(h.call.value.encounter) == body.encounter
              && h.call.value.history == body.history
    ensures h.response.Success? <==> h.call.Some? && outcome.Analyzed?
    ensures h.response.Success? ==> h.response.analysis == outcome.analysis
    ensures h.response.Failure? && h.response.code == AnalysisFailed <==>
              (allowed && body.Unparsable?) || (h.call.Some? && outcome.Threw?)
    ensures h.response.Failure? && h.response.code == InvalidRequest <==>
              allowed && body.Parsed? && (body.patient.NoPatient? || body.encounter.None?)
    ensures h.response.Failure? && h.response.code == ConsentRequired <==>
              allowed && body.Parsed? && body.patient.PatientValue? && body.encounter.Some? && !body.patient.patient.consentGiven
    ensures h.response.Failure? && h.response.code == ConfigurationError <==>
              allowed && body.Parsed? && body.patient.PatientValue? && body.encounter.Some? &&
              body.patient.patient.consentGiven && !KeyPresent(apiKey)
    ensures h.response.Failure? ==> (h.response.originalError.Some? <==> h.response.code == AnalysisFailed)
    ensures h.response.Failure? ==> h.response.message == FailureText(h.response.code)
    ensures allowed && body.Unparsable? ==> h.response.originalError == Some(body.message)
    ensures h.call.Some? && outcome.Threw? ==>
              h.response.originalError == Some(outcome.errorMessage.GetOr("Unknown error occurred"))
  {
    if !allowed then
      Handled(Failure(RateLimitExceeded, "Too many requests. Please wait before trying again.", None, elapsed, requestId), None)
    else match body
      case Unparsable(message) =>
        Handled(Failure(AnalysisFailed, "Failed to complete clinical analysis. Please try again.", Some(message), elapsed, requestId), None)
      case Parsed(patient, encounter, history, labResults) =>
        if patient.NoPatient? || encounter.None? then
          Handled(Failure(InvalidRequest, "Patient and encounter data are required.", None, elapsed, requestId), None)
        else if !patient.patient.consentGiven then
          Handled(Failure(ConsentRequired, "Patient consent is required for AI analysis.", None, elapsed, requestId), None)
        else if !KeyPresent(apiKey) then
          Handled(Failure(ConfigurationError, "AI service is not properly configured.", None, elapsed, requestId), None)
        else
          var call := AnalysisCall(patient.patient, encounter.value, history, labResults.GetOr([]));
          match outcome
          case Analyzed(analysis) => Handled(Success(analysis, elapsed, requestId), Some(call))
          case Threw(m) =>
            Handled(Failure(AnalysisFailed, "Failed to complete clinical analysis. Please try again.",
                            Some(m.GetOr("Unknown error occurred")), elapsed, requestId), Some(call))
  }

  /**
   * `POST`: derives the client key, consumes a rate-limit unit (before the body is even
   * read), then runs the ladder.
   */
  method Post(limiter: RateLimiter, forwardedFor: Option<string>, realIp: Option<string>, now: int,
              body: AnalyzeBody, apiKey: Option<string>, outcome: AnalysisOutcome,
              elapsed: int, requestId: string) returns (h: Handled)
    modifies limiter
    ensures limiter.store == RateStep(old(limiter.store), ClientId(forwardedFor, realIp), now).store
    ensures h == Respond(RateStep(old(limiter.store), ClientId(forwardedFor, realIp), now).allowed,
                         body, apiKey, outcome, elapsed, requestId)
  {
    var clientId := ClientId(forwardedFor, realIp);
    var allowed := limiter.CheckRateLimit(clientId, now);
    h := Respond(allowed, body, apiKey, outcome, elapsed, requestId);
  }

  /** The responses to a run of requests, given the rate-limit decision of each. */
  function RespondAll(decisions: seq<bool>, bodies: seq<AnalyzeBody>, apiKey: Option<string>,
                      outcome: AnalysisOutcome, elapsed: int, requestId: string): (r: seq<Handled>)
    requires |decisions| == |bodies|
    ensures |r| == |bodies|
    ensures forall i :: 0 <= i < |bodies| ==> r[i] == Respond(decisions[i], bodies[i], apiKey, outcome, elapsed, requestId)
  {
    if bodies == [] then []
    else [Respond(decisions[0], bodies[0], apiKey, outcome, elapsed, requestId)]
         + RespondAll(decisions[1..], bodies[1..], apiKey, outcome, elapsed, requestId)
  }

  /**
   * Rejected requests still use up the window: after ten requests in one window, whatever
   * their bodies (even ones answered INVALID_REQUEST or CONSENT_REQUIRED), an eleventh in
   * the same window is answered RATE_LIMIT_EXCEEDED and never reaches the analysis.
   */
  lemma RejectedRequestsConsumeBudget(store: map<string, RateWindow>, clientId: string, times: seq<int>,
                                      bodies: seq<AnalyzeBody>, apiKey: Option<string>,
                                      outcome: AnalysisOutcome, elapsed: int, requestId: string)
    requires |times| == |bodies| == RateLimit + 1
    requires clientId !in store || times[0] > store[clientId].resetTime
    requires forall i :: 0 <= i < |times| ==> times[i] <= times[0] + RateLimitWindow
    ensures var r := RespondAll(RunCalls(store, clientId, times).0, bodies, apiKey, outcome, elapsed, requestId);
            r[RateLimit].response.Failure? && r[RateLimit].response.code == RateLimitExceeded && r[RateLimit].call == None
  {
    WindowAllowsAtMostTen(store, clientId, times);
  }
}
