/**
 The result-callback client (services/api_client.py): construction from the environment,
 the session-result and status-update calls, and the two-step health probe. The HTTP
 client is an oracle returning a status code or one of the exceptions the client catches;
 every call therefore ends in a boolean, never an exception.
 */
module ApiClient {
  import opened Base
  import opened Strings
  import opened Json

  const BaseUrlVar := "API_BASE_URL"
  const TimeoutVar := "WEBHOOK_TIMEOUT"
  /** The timeout text used when the variable is unset, in seconds. */
  const DefaultTimeoutText := "30"
  /** The version string every session payload carries. */
  const MicroserviceVersion := "1.0"

  /** A constructed client: the base URL without trailing '/' and the request timeout. */
  datatype ApiClient = ApiClient(baseUrl: string, timeout: int)

  datatype ConfigError = InvalidTimeout(text: string) | MissingBaseUrl

  /**
   `APIClientService.__init__`. `parseInt` stands for Python's `int()` on the timeout
   text, which is evaluated before the base URL is checked. The base URL must be set and
   non-empty; trailing slashes are then stripped (which can leave it empty, as for "/").
   */
  function NewApiClient(env: map<string, string>, parseInt: string -> Option<int>): (r: Result<ApiClient, ConfigError>)
    ensures parseInt(Getenv(env, TimeoutVar, DefaultTimeoutText)).None? ==>
              r == Failure(InvalidTimeout(Getenv(env, TimeoutVar, DefaultTimeoutText)))
    ensures r.Success? <==> parseInt(Getenv(env, TimeoutVar, DefaultTimeoutText)).Some?
                            && BaseUrlVar in env && env[BaseUrlVar] != ""
    ensures r == Failure(MissingBaseUrl) <==>
              parseInt(Getenv(env, TimeoutVar, DefaultTimeoutText)).Some? && (BaseUrlVar !in env || env[BaseUrlVar] == "")
    ensures r.Success? ==> && BaseUrlVar in env && env[BaseUrlVar] != ""
                           && StartsWith(env[BaseUrlVar], r.value.baseUrl)
                           && (r.value.baseUrl == "" || r.value.baseUrl[|r.value.baseUrl| - 1] != '/')
                           && (forall k :: |r.value.baseUrl| <= k < |env[BaseUrlVar]| ==> env[BaseUrlVar][k] == '/')
    ensures r.Success? ==> Some(r.value.timeout) == parseInt(Getenv(env, TimeoutVar, DefaultTimeoutText))
  {
    var timeoutText := Getenv(env, TimeoutVar, DefaultTimeoutText);
    match parseInt(timeoutText)
    case None => Failure(InvalidTimeout(timeoutText))
    case Some(timeout) =>
      if BaseUrlVar !in env || env[BaseUrlVar] == "" then Failure(MissingBaseUrl)
      else Success(ApiClient(RStrip(env[BaseUrlVar], '/'), timeout))
  }

  /** A constructed client's base URL is already normalised: stripping again changes nothing. */
  lemma BaseUrlNormalised(env: map<string, string>, parseInt: string -> Option<int>)
    requires NewApiClient(env, parseInt).Success?
    ensures RStrip(NewApiClient(env, parseInt).value.baseUrl, '/') == NewApiClient(env, parseInt).value.baseUrl
  {
    RStripIdempotent(env[BaseUrlVar], '/');
  }

  // ---------------------------------------------------------------- HTTP outcomes

  /** What an HTTP call yields: a response status, or one of the exceptions the client catches. */
  datatype HttpOutcome =
    | Responded(status: int)
    | TimedOut                       // httpx.TimeoutException
    | RequestFailed(message: string) // httpx.RequestError
    | Unexpected(message: string)    // any other exception

  /** The statuses a send treats as delivered. */
  const AcceptedStatuses: set<int> := {200, 201, 202}

  /** A POST is reported successful iff it got a response whose status is 200, 201 or 202. */
  predicate Delivered(o: HttpOutcome) {
    o.Responded? && o.status in AcceptedStatuses
  }

  /** A request body posted to a URL. */
  datatype Post<P> = Post(url: string, payload: P)

  // ---------------------------------------------------------------- URLs

  /** Where session results go: `{base}/project/{project_id}/flow/{flow_id}/session/create`. */
  function SessionResultUrl(baseUrl: string, projectId: string, flowId: string): string {
    Join([baseUrl, "project", projectId, "flow", flowId, "session", "create"], '/')
  }

  /** Where status updates go: `{base}/project/{project_id}/flow/{flow_id}/status`. */
  function StatusUrl(baseUrl: string, projectId: string, flowId: string): string {
    Join([baseUrl, "project", projectId, "flow", flowId, "status"], '/')
  }

  /** For slash-free ids the session URL splits into the base's pieces and the six path segments. */
  lemma SessionResultUrlSegments(baseUrl: string, projectId: string, flowId: string)
    requires '/' !in projectId && '/' !in flowId
    ensures Split(SessionResultUrl(baseUrl, projectId, flowId), '/')
            == Split(baseUrl, '/') + ["project", projectId, "flow", flowId, "session", "create"]
  {
    var parts := ["project", projectId, "flow", flowId, "session", "create"];
    assert [baseUrl] + parts == [baseUrl, "project", projectId, "flow", flowId, "session", "create"];
    PathSegmentsSlashFree(parts, projectId, flowId);
    UrlSegments(baseUrl, parts);
  }

  /** For slash-free ids the status URL splits into the base's pieces and the five path segments. */
  lemma StatusUrlSegments(baseUrl: string, projectId: string, flowId: string)
    requires '/' !in projectId && '/' !in flowId
    ensures Split(StatusUrl(baseUrl, projectId, flowId), '/')
            == Split(baseUrl, '/') + ["project", projectId, "flow", flowId, "status"]
  {
    var parts := ["project", projectId, "flow", flowId, "status"];
    assert [baseUrl] + parts == [baseUrl, "project", projectId, "flow", flowId, "status"];
    PathSegmentsSlashFree(parts, projectId, flowId);
    UrlSegments(baseUrl, parts);
  }

  /** The fixed words of both endpoints hold no '/', so with slash-free ids every segment is slash-free. */
  lemma PathSegmentsSlashFree(parts: seq<string>, projectId: string, flowId: string)
    requires '/' !in projectId && '/' !in flowId
    requires parts == ["project", projectId, "flow", flowId, "session", "create"]
          || parts == ["project", projectId, "flow", flowId, "status"]
    ensures forall k :: 0 <= k < |parts| ==> '/' !in parts[k]
  {
    assert '/' !in "project" && '/' !in "flow" && '/' !in "session" && '/' !in "create" && '/' !in "status";
  }

  /** A base URL followed by slash-free segments splits into the base's pieces, then the segments. */
  lemma UrlSegments(baseUrl: string, parts: seq<string>)
    requires |parts| >= 1
    requires forall k :: 0 <= k < |parts| ==> '/' !in parts[k]
    ensures Split(Join([baseUrl] + parts, '/'), '/') == Split(baseUrl, '/') + parts
  {
    var whole := [baseUrl] + parts;
    assert whole[1..] == parts;
    JoinHead(whole, '/');
    SplitAppend(baseUrl, '/', Join(parts, '/'));
    SplitJoin(parts, '/');
  }

  /**
   The two endpoints of one flow never coincide, whatever the ids contain: the session URL
   ends in "create" and the status URL in "status".
   */
  lemma SessionAndStatusUrlsDiffer(baseUrl: string, projectId: string, flowId: string)
    ensures SessionResultUrl(baseUrl, projectId, flowId) != StatusUrl(baseUrl, projectId, flowId)
  {
    var a := SessionResultUrl(baseUrl, projectId, flowId);
    var b := StatusUrl(baseUrl, projectId, flowId);
    JoinEndsWithLast([baseUrl, "project", projectId, "flow", flowId, "session", "create"], '/');
    JoinEndsWithLast([baseUrl, "project", projectId, "flow", flowId, "status"], '/');
    assert a[|a| - 1] == 'e';
    assert b[|b| - 1] == 's';
  }

  // ---------------------------------------------------------------- session results

  /** The session-result body; `error` and `metadata` are keys that may be absent. */
  datatype SessionPayload = SessionPayload(
    agentHistory: seq<Json>,
    mediaUrls: seq<string>,
    status: string,
    timestamp: string,
    microserviceVersion: string,
    error: Option<string>,
    metadata: Option<map<string, Json>>)

  /**
   The payload of `send_session_result`: the five fixed keys always; `error` and
   `metadata` only when the caller's value is truthy (a non-empty string or dict).
   `timestamp` is the clock reading.
   */
  function SessionPayloadFor(agentHistory: seq<Json>, mediaUrls: seq<string>, status: string, timestamp: string,
                             error: Option<string>, metadata: Option<map<string, Json>>): (p: SessionPayload)
    ensures p.agentHistory == agentHistory && p.mediaUrls == mediaUrls
    ensures p.status == status && p.timestamp == timestamp && p.microserviceVersion == MicroserviceVersion
    ensures p.error.Some? <==> error.Some? && error.value != ""
    ensures p.error.Some? ==> p.error == error
    ensures p.metadata.Some? <==> metadata.Some? && metadata.value != map[]
    ensures p.metadata.Some? ==> p.metadata == metadata
  {
    SessionPayload(agentHistory, mediaUrls, status, timestamp, MicroserviceVersion,
                   if error.Some? && error.value != "" then error else None,
                   if metadata.Some? && metadata.value != map[] then metadata else None)
  }

  /**
   `send_session_result`: posts the payload to the flow's session endpoint and reports
   True iff the response status is 200, 201 or 202; timeouts, request errors and any
   other exception give False.
   */
  function SendSessionResult(client: ApiClient, projectId: string, flowId: string,
                             agentHistory: seq<Json>, mediaUrls: seq<string>, status: string,
                             error: Option<string>, metadata: Option<map<string, Json>>, timestamp: string,
                             post: Post<SessionPayload> -> HttpOutcome): (ok: bool)
    ensures var request := Post(SessionResultUrl(client.baseUrl, projectId, flowId),
                                SessionPayloadFor(agentHistory, mediaUrls, status, timestamp, error, metadata));
            ok <==> post(request).Responded? && post(request).status in AcceptedStatuses
  {
    var url := SessionResultUrl(client.baseUrl, projectId, flowId);
    var payload := SessionPayloadFor(agentHistory, mediaUrls, status, timestamp, error, metadata);
    match post(Post(url, payload))
    case Responded(code) => code in AcceptedStatuses
    case TimedOut => false
    case RequestFailed(_) => false
    case Unexpected(_) => false
  }

  // ---------------------------------------------------------------- status updates

  /** `min(max(progress, 0), 100)`. */
  function ClampProgress(progress: int): (p: int)
    ensures 0 <= p <= 100
    ensures 0 <= progress <= 100 ==> p == progress
    ensures progress < 0 ==> p == 0
    ensures progress > 100 ==> p == 100
  {
    if progress < 0 then 0 else if progress > 100 then 100 else progress
  }

  /**
   A status payload is a fixed point: sending the progress and message it carries again
   produces the same payload, so a receiver that echoes an update back cannot drift it.
   */
  lemma StatusPayloadStable(status: string, timestamp: string, progress: Option<int>, message: Option<string>)
    ensures var p := StatusPayloadFor(status, timestamp, progress, message);
            StatusPayloadFor(status, timestamp, p.progress, p.message) == p
  {
  }

  /** The status-update body; `progress` and `message` are keys that may be absent. */
  datatype StatusPayload = StatusPayload(status: string, timestamp: string, progress: Option<int>, message: Option<string>)

  /**
   The payload of `send_status_update`: `progress` is present iff given (even 0), clamped
   to [0, 100]; `message` is present iff given and non-empty.
   */
  function StatusPayloadFor(status: string, timestamp: string, progress: Option<int>, message: Option<string>): (p: StatusPayload)
    ensures p.status == status && p.timestamp == timestamp
    ensures p.progress.Some? <==> progress.Some?
    ensures p.progress.Some? ==> 0 <= p.progress.value <= 100
    ensures p.progress.Some? && 0 <= progress.value <= 100 ==> p.progress == progress
    ensures p.progress.Some? ==> p.progress.value == ClampProgress(progress.value)
    ensures p.message.Some? <==> message.Some? && message.value != ""
    ensures p.message.Some? ==> p.message == message
  {
    StatusPayload(status, timestamp,
                  if progress.Some? then Some(ClampProgress(progress.value)) else None,
                  if message.Some? && message.value != "" then message else None)
  }

  /** `send_status_update`: the same success rule as session results, on the status endpoint. */
  function SendStatusUpdate(client: ApiClient, projectId: string, flowId: string, status: string,
                            progress: Option<int>, message: Option<string>, timestamp: string,
                            post: Post<StatusPayload> -> HttpOutcome): (ok: bool)
    ensures var request := Post(StatusUrl(client.baseUrl, projectId, flowId),
                                StatusPayloadFor(status, timestamp, progress, message));
            ok <==> post(request).Responded? && post(request).status in AcceptedStatuses
  {
    var url := StatusUrl(client.baseUrl, projectId, flowId);
    match post(Post(url, StatusPayloadFor(status, timestamp, progress, message)))
    case Responded(code) => code in AcceptedStatuses
    case TimedOut => false
    case RequestFailed(_) => false
    case Unexpected(_) => false
  }

  // ---------------------------------------------------------------- health

  /** The URL the health probe tries first. */
  function HealthUrl(baseUrl: string): string {
    baseUrl + "/health"
  }

  /**
   `health_check`: healthy if `/health` answers 200; otherwise, if `/health` answered at
   all, healthy iff the base URL answers with a status below 500. Any exception on either
   request makes it unhealthy.
   */
  function HealthCheck(client: ApiClient, get: string -> HttpOutcome): (healthy: bool)
    ensures get(HealthUrl(client.baseUrl)) == Responded(200) ==> healthy
    ensures !get(HealthUrl(client.baseUrl)).Responded? ==> !healthy
    ensures get(HealthUrl(client.baseUrl)).Responded? && get(HealthUrl(client.baseUrl)).status != 200 ==>
              (healthy <==> get(client.baseUrl).Responded? && get(client.baseUrl).status < 500)
  {
    match get(HealthUrl(client.baseUrl))
    case Responded(code) =>
      if code == 200 then true
      else (match get(client.baseUrl)
            case Responded(fallback) => fallback < 500
            case _ => false)
    case _ => false
  }
}
