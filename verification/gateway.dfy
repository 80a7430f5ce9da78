/**
 The HTTP gateway (app.py): the in-memory task registry and the background execution
 that moves a task from pending through running to completed or failed, the webhook
 payload, the health aggregation, the status counts and the queue test endpoint.
 The browser agent, the webhook transport, the message processor and the clock are
 parameters; the registry is a map from task id to record.
 */
module Gateway {
  import opened Base
  import opened Json
  import opened Strings
  import SqsService

  // ---------------------------------------------------------------- records

  datatype TaskStatus = Pending | Running | Completed | Failed

  /** The status word stored in a record and sent in webhooks. */
  function StatusName(s: TaskStatus): (name: string)
    ensures name in {"pending", "running", "completed", "failed"}
  {
    match s
    case Pending => "pending"
    case Running => "running"
    case Completed => "completed"
    case Failed => "failed"
  }

  /** Distinct statuses have distinct names. */
  lemma StatusNameInjective(a: TaskStatus, b: TaskStatus)
    ensures StatusName(a) == StatusName(b) <==> a == b
  {
  }

  /**
   One registry record. Keys the source adds later (`started_at`, `completed_at`,
   `agent_history`, `media_files`) are None until set; `media_files` holds the count.
   */
  datatype TaskRecord = TaskRecord(
    task: string,
    status: TaskStatus,
    createdAt: string,
    startedAt: Option<string>,
    completedAt: Option<string>,
    result: Option<string>,
    error: Option<string>,
    callbackUrl: Option<string>,
    agentHistory: Option<seq<Json>>,
    mediaFiles: Option<nat>)

  type TaskRegistry = map<string, TaskRecord>

  /**
   The body of `POST /api/v1/tasks` after request validation: `timeout` is the validated
   field, which the request model already fills with 300 when the field is left out and
   leaves None only when it is sent as null. It is forwarded to the job unchanged.
   */
  datatype TaskRequest = TaskRequest(task: string, callbackUrl: Option<string>, timeout: Option<int>)

  datatype TaskResponse = TaskResponse(taskId: string, status: string, message: string)

  const QueuedMessage := "Task created and queued for execution"

  /** The background call `create_task` schedules. */
  datatype Job = Job(taskId: string, task: string, callbackUrl: Option<string>, timeout: Option<int>)

  datatype Created = Created(registry: TaskRegistry, response: TaskResponse, job: Job)

  /**
   `create_task`: stores a pending record under `taskId` (the fresh uuid), answers with
   the id and schedules the execution. Only that entry changes.
   */
  function CreateTask(reg: TaskRegistry, taskId: string, request: TaskRequest, createdAt: string): (c: Created)
    ensures taskId in c.registry && c.registry.Keys == reg.Keys + {taskId}
    ensures var rec := c.registry[taskId];
            && rec.status == Pending && rec.result == None && rec.error == None
            && rec.task == request.task && rec.callbackUrl == request.callbackUrl && rec.createdAt == createdAt
            && rec.startedAt == None && rec.completedAt == None
    ensures forall k :: k in reg && k != taskId ==> c.registry[k] == reg[k]
    ensures taskId !in reg ==> |c.registry| == |reg| + 1
    ensures c.response == TaskResponse(taskId, StatusName(Pending), QueuedMessage)
    ensures c.job == Job(taskId, request.task, request.callbackUrl, request.timeout)
  {
    var rec := TaskRecord(request.task, Pending, createdAt, None, None, None, None, request.callbackUrl, None, None);
    Created(reg[taskId := rec], TaskResponse(taskId, "pending", QueuedMessage),
            Job(taskId, request.task, request.callbackUrl, request.timeout))
  }

  /** An HTTP error answer. */
  datatype HttpError = HttpError(status: int, detail: string)

  const TaskNotFound := HttpError(404, "Task not found")

  /** `get_task_status`: the stored record itself, or 404 for an unknown id. */
  function GetTaskStatus(reg: TaskRegistry, taskId: string): (r: Result<TaskRecord, HttpError>)
    ensures r.Failure? <==> taskId !in reg
    ensures r.Failure? ==> r.error == TaskNotFound
    ensures r.Success? ==> r.value == reg[taskId]
  {
    if taskId !in reg then Failure(TaskNotFound) else Success(reg[taskId])
  }

  /** A task just created is found, pending, with neither result nor error. */
  lemma CreatedTaskIsPending(reg: TaskRegistry, taskId: string, request: TaskRequest, createdAt: string)
    ensures var r := GetTaskStatus(CreateTask(reg, taskId, request, createdAt).registry, taskId);
            r.Success? && r.value.status == Pending && r.value.result == None && r.value.error == None
  {
  }

  // ---------------------------------------------------------------- webhooks

  /** The webhook body; `result`, `error` and `agent_history` are keys that may be absent. */
  datatype WebhookPayload = WebhookPayload(
    taskId: string, status: string, timestamp: string,
    result: Option<string>, error: Option<string>, agentHistory: Option<seq<Json>>)

  /** One webhook POST; its outcome is caught and only logged, so nothing depends on it. */
  datatype Webhook = Webhook(callbackUrl: string, payload: WebhookPayload)

  /** `send_webhook`'s payload: three fixed keys, the optional ones only when truthy. */
  function WebhookPayloadFor(taskId: string, status: TaskStatus, timestamp: string, result: Option<string>,
                             error: Option<string>, agentHistory: Option<seq<Json>>): (p: WebhookPayload)
    ensures p.taskId == taskId && p.status == StatusName(status) && p.timestamp == timestamp
    ensures p.result.Some? <==> TruthyText(result)
    ensures p.error.Some? <==> TruthyText(error)
    ensures p.agentHistory.Some? <==> agentHistory.Some? && agentHistory.value != []
    ensures p.result.Some? ==> p.result == result
    ensures p.error.Some? ==> p.error == error
    ensures p.agentHistory.Some? ==> p.agentHistory == agentHistory
  {
    WebhookPayload(taskId, StatusName(status), timestamp,
                   if TruthyText(result) then result else None,
                   if TruthyText(error) then error else None,
                   if agentHistory.Some? && agentHistory.value != [] then agentHistory else None)
  }

  // ---------------------------------------------------------------- execution

  /** What the agent's `run_task` does: raise, or return history, media files and a summary. */
  datatype RunOutcome =
    | AgentRaised(message: string)
    | AgentReturned(agentHistory: seq<Json>, mediaFiles: seq<string>, summary: string)

  /** The clock readings one execution takes, in the order the source takes them. */
  datatype ExecClock = ExecClock(startedAt: string, completedAt: string, completedHookAt: string,
                                 failedAt: string, failedHookAt: string)

  /**
   One execution: the successive values the task's record takes (the first is the
   running record) and the webhooks sent, in order.
   */
  datatype Execution = Execution(states: seq<TaskRecord>, webhooks: seq<Webhook>)

  function Last<T>(s: seq<T>): T
    requires |s| > 0
  {
    s[|s| - 1]
  }

  /** The outer handler's update: failed, no result, the error text, a completion time. */
  function FailRecord(rec: TaskRecord, message: string, at: string): (f: TaskRecord)
    ensures f.status == Failed && f.result == None && f.error == Some(message) && f.completedAt == Some(at)
    ensures f.task == rec.task && f.createdAt == rec.createdAt && f.startedAt == rec.startedAt
    ensures f.callbackUrl == rec.callbackUrl && f.agentHistory == rec.agentHistory && f.mediaFiles == rec.mediaFiles
  {
    rec.(status := Failed, result := None, completedAt := Some(at), error := Some(message))
  }

  /** The webhooks sent for a status, none when the callback URL is not truthy. */
  function HooksFor(callbackUrl: Option<string>, payload: WebhookPayload): (hooks: seq<Webhook>)
    ensures |hooks| <= 1
    ensures hooks != [] <==> TruthyText(callbackUrl)
    ensures hooks != [] ==> hooks[0] == Webhook(callbackUrl.value, payload)
  {
    if TruthyText(callbackUrl) then [Webhook(callbackUrl.value, payload)] else []
  }

  /**
   `execute_browser_task`. `construct` is the error the agent's constructor raised, if
   any (then the inner try and its `finally` are never entered); `run` is the agent;
   `cleanup` is what the `finally` block's call does. Python semantics: an exception in
   `finally` replaces the one in flight, and the success update and its webhook happen
   before the `finally` block runs.
   */
  function ExecuteBrowserTask(reg: TaskRegistry, taskId: string, description: string, callbackUrl: Option<string>,
                              timeout: Option<int>, clock: ExecClock, construct: Option<string>,
                              run: (string, Option<int>) -> RunOutcome, cleanup: CallOutcome): (e: Execution)
    requires taskId in reg
    ensures 2 <= |e.states| <= 3
    ensures e.states[0] == reg[taskId].(status := Running, startedAt := Some(clock.startedAt))
    ensures Last(e.states).status in {TaskStatus.Completed, Failed}
    ensures Last(e.states).status == TaskStatus.Completed <==>
              construct.None? && run(description, timeout).AgentReturned? && cleanup.Completed?
    ensures |e.states| == 3 <==> construct.None? && run(description, timeout).AgentReturned? && cleanup.Raised?
    ensures |e.states| == 3 ==> e.states[1].status == TaskStatus.Completed && e.states[2] == FailRecord(e.states[1], cleanup.message, clock.failedAt)
    ensures Last(e.states).status == Failed ==>
              Last(e.states).error == Some(if construct.Some? then construct.value
                                           else if cleanup.Raised? then cleanup.message
                                           else run(description, timeout).message)
    ensures !TruthyText(callbackUrl) <==> e.webhooks == []
    ensures e.webhooks != [] ==> Last(e.webhooks).payload.status == StatusName(Last(e.states).status)
    ensures |e.webhooks| == if TruthyText(callbackUrl) then |e.states| - 1 else 0
    ensures forall k :: 0 <= k < |e.webhooks| ==>
              e.webhooks[k].callbackUrl == callbackUrl.value && e.webhooks[k].payload.taskId == taskId
    ensures e.webhooks != [] && Last(e.states).status == Failed ==>
              Last(e.webhooks).payload == WebhookPayloadFor(taskId, Failed, clock.failedHookAt, None, Last(e.states).error, None)
    ensures e.states[1].status == TaskStatus.Completed ==>
              && run(description, timeout).AgentReturned?
              && e.states[1] == e.states[0].(status := TaskStatus.Completed,
                                             result := Some(run(description, timeout).summary),
                                             agentHistory := Some(run(description, timeout).agentHistory),
                                             mediaFiles := Some(|run(description, timeout).mediaFiles|),
                                             completedAt := Some(clock.completedAt), error := None)
    ensures e.states[1].status == TaskStatus.Completed && e.webhooks != [] ==>
              e.webhooks[0].payload == WebhookPayloadFor(taskId, TaskStatus.Completed, clock.completedHookAt,
                                                         Some(run(description, timeout).summary), None,
                                                         Some(run(description, timeout).agentHistory))
    ensures |e.states| == 2 && Last(e.states).status == Failed ==>
              e.states[1] == FailRecord(e.states[0], Last(e.states).error.value, clock.failedAt)
  {
    var running := reg[taskId].(status := Running, startedAt := Some(clock.startedAt));
    if construct.Some? then
      var failed := FailRecord(running, construct.value, clock.failedAt);
      Execution([running, failed],
                HooksFor(callbackUrl, WebhookPayloadFor(taskId, Failed, clock.failedHookAt, None, construct, None)))
    else
      match run(description, timeout)
      case AgentRaised(message) =>
        var error := if cleanup.Raised? then cleanup.message else message;
        var failed := FailRecord(running, error, clock.failedAt);
        Execution([running, failed],
                  HooksFor(callbackUrl, WebhookPayloadFor(taskId, Failed, clock.failedHookAt, None, Some(error), None)))
      case AgentReturned(history, media, summary) =>
        var done := running.(status := TaskStatus.Completed, result := Some(summary), agentHistory := Some(history),
                             mediaFiles := Some(|media|), completedAt := Some(clock.completedAt), error := None);
        var completedHooks := HooksFor(callbackUrl,
                                       WebhookPayloadFor(taskId, TaskStatus.Completed, clock.completedHookAt, Some(summary), None, Some(history)));
        if cleanup.Completed? then Execution([running, done], completedHooks)
        else
          var failed := FailRecord(done, cleanup.message, clock.failedAt);
          Execution([running, done, failed],
                    completedHooks + HooksFor(callbackUrl, WebhookPayloadFor(taskId, Failed, clock.failedHookAt, None, Some(cleanup.message), None)))
  }

  /** The registry once an execution has finished: only the task's own entry changed. */
  function FinalRegistry(reg: TaskRegistry, taskId: string, e: Execution): (r: TaskRegistry)
    requires |e.states| > 0
    ensures r.Keys == reg.Keys + {taskId} && r[taskId] == Last(e.states)
    ensures forall k :: k in reg && k != taskId ==> r[k] == reg[k]
  {
    reg[taskId := Last(e.states)]
  }

  /** A finished task holds exactly one of a result and an error, and a completion time. */
  lemma TerminalRecordExclusive(reg: TaskRegistry, taskId: string, description: string, callbackUrl: Option<string>,
                                timeout: Option<int>, clock: ExecClock, construct: Option<string>,
                                run: (string, Option<int>) -> RunOutcome, cleanup: CallOutcome)
    requires taskId in reg
    ensures var rec := Last(ExecuteBrowserTask(reg, taskId, description, callbackUrl, timeout, clock, construct, run, cleanup).states);
            && (rec.result.Some? <==> rec.error.None?)
            && (rec.status == TaskStatus.Completed <==> rec.error.None?)
            && rec.completedAt.Some? && rec.startedAt == Some(clock.startedAt)
  {
  }

  /** The message of the AttributeError the source's `finally` block raises. */
  const MissingCleanupMessage := "'BrowserAgentService' object has no attribute 'cleanup_temp_files'"

  /**
   The execution as written: the agent class has no `cleanup_temp_files`, so the
   `finally` block always raises.
   */
  function ExecuteAsWritten(reg: TaskRegistry, taskId: string, description: string, callbackUrl: Option<string>,
                            timeout: Option<int>, clock: ExecClock, construct: Option<string>,
                            run: (string, Option<int>) -> RunOutcome): (e: Execution)
    requires taskId in reg
    ensures |e.states| >= 2 && Last(e.states).status == Failed
  {
    ExecuteBrowserTask(reg, taskId, description, callbackUrl, timeout, clock, construct, run, Raised(MissingCleanupMessage))
  }

  /**
   As written, a successful agent run is recorded completed and then overwritten with
   failed, and a caller with a callback URL receives a completed and then a failed webhook.
   */
  lemma AsWrittenSuccessEndsFailed(reg: TaskRegistry, taskId: string, description: string, callbackUrl: Option<string>,
                                   timeout: Option<int>, clock: ExecClock,
                                   run: (string, Option<int>) -> RunOutcome)
    requires taskId in reg && run(description, timeout).AgentReturned?
    ensures var e := ExecuteAsWritten(reg, taskId, description, callbackUrl, timeout, clock, None, run);
            && |e.states| == 3 && e.states[1].status == TaskStatus.Completed
            && e.states[1].result == Some(run(description, timeout).summary)
            && e.states[2].status == Failed && e.states[2].result == None
            && e.states[2].error == Some(MissingCleanupMessage)
            && e.states[2].agentHistory == Some(run(description, timeout).agentHistory)
            && (TruthyText(callbackUrl) ==>
                  |e.webhooks| == 2 && e.webhooks[0].payload.status == "completed"
                  && e.webhooks[1].payload.status == "failed")
  {
  }

  /**
   The execution as evidently intended: the `finally` block's cleanup does not raise, so
   the outcome is the agent's own.
   */
  function ExecuteCorrected(reg: TaskRegistry, taskId: string, description: string, callbackUrl: Option<string>,
                            timeout: Option<int>, clock: ExecClock, construct: Option<string>,
                            run: (string, Option<int>) -> RunOutcome): (e: Execution)
    requires taskId in reg
    ensures |e.states| == 2 && |e.webhooks| <= 1
    ensures Last(e.states).status == TaskStatus.Completed <==> construct.None? && run(description, timeout).AgentReturned?
  {
    ExecuteBrowserTask(reg, taskId, description, callbackUrl, timeout, clock, construct, run, CallOutcome.Completed)
  }

  /**
   With the corrected cleanup a successful run ends completed with the agent's summary,
   history and media count, and the only webhook sent reports completion.
   */
  lemma CorrectedSuccessCompletes(reg: TaskRegistry, taskId: string, description: string, callbackUrl: Option<string>,
                                  timeout: Option<int>, clock: ExecClock,
                                  run: (string, Option<int>) -> RunOutcome)
    requires taskId in reg && run(description, timeout).AgentReturned?
    ensures var e := ExecuteCorrected(reg, taskId, description, callbackUrl, timeout, clock, None, run);
            var out := run(description, timeout);
            && Last(e.states).status == TaskStatus.Completed && Last(e.states).error == None
            && Last(e.states).result == Some(out.summary)
            && Last(e.states).agentHistory == Some(out.agentHistory)
            && Last(e.states).mediaFiles == Some(|out.mediaFiles|)
            && (TruthyText(callbackUrl) ==> |e.webhooks| == 1 && e.webhooks[0].payload.status == "completed")
  {
  }

  /**
   Create then execute: the task is found afterwards in a terminal state, and every
   other task's record is untouched.
   */
  lemma TaskLifecycle(reg: TaskRegistry, taskId: string, request: TaskRequest, createdAt: string, clock: ExecClock,
                      construct: Option<string>, run: (string, Option<int>) -> RunOutcome, cleanup: CallOutcome)
    ensures var c := CreateTask(reg, taskId, request, createdAt);
            var e := ExecuteBrowserTask(c.registry, taskId, c.job.task, c.job.callbackUrl, c.job.timeout,
                                        clock, construct, run, cleanup);
            var after := FinalRegistry(c.registry, taskId, e);
            && GetTaskStatus(after, taskId).Success?
            && GetTaskStatus(after, taskId).value.status in {TaskStatus.Completed, Failed}
            && GetTaskStatus(after, taskId).value.createdAt == createdAt
            && (forall k :: k in reg && k != taskId ==> GetTaskStatus(after, k) == GetTaskStatus(reg, k))
  {
  }

  // ---------------------------------------------------------------- counts

  /** The ids of running tasks. */
  function RunningIds(reg: TaskRegistry): set<string> {
    set k | k in reg && reg[k].status == Running
  }

  /** `active_tasks`: how many records are running. */
  function ActiveTasks(reg: TaskRegistry): (n: nat)
    ensures n <= |reg|
  {
    SubsetCardinality(RunningIds(reg), reg.Keys);
    |RunningIds(reg)|
  }

  /** `total_tasks`: the registry size. */
  function TotalTasks(reg: TaskRegistry): nat {
    |reg|
  }

  lemma SubsetCardinality<T>(a: set<T>, b: set<T>)
    requires a <= b
    ensures |a| <= |b|
  {
    if a != {} {
      var x :| x in a;
      SubsetCardinality(a - {x}, b - {x});
    }
  }

  /** Setting one element aside: the set's size is the rest's size plus one if it was there. */
  lemma CardinalityWithout<T>(a: set<T>, x: T)
    ensures |a| == |a - {x}| + (if x in a then 1 else 0)
  {
    if x in a {
      assert a == (a - {x}) + {x};
    } else {
      assert a - {x} == a;
    }
  }

  /** Storing a record changes the running count by the change in that one entry's status. */
  lemma ActiveAfterStore(reg: TaskRegistry, taskId: string, rec: TaskRecord)
    ensures var before := if taskId in reg && reg[taskId].status == Running then 1 else 0;
            var now := if rec.status == Running then 1 else 0;
            ActiveTasks(reg[taskId := rec]) == ActiveTasks(reg) - before + now
  {
    var runningBefore := RunningIds(reg);
    var runningAfter := RunningIds(reg[taskId := rec]);
    RunningIdsElsewhere(reg, taskId, rec);
    CardinalityWithout(runningBefore, taskId);
    CardinalityWithout(runningAfter, taskId);
  }

  /** Storing a record leaves every other id's running-ness as it was. */
  lemma RunningIdsElsewhere(reg: TaskRegistry, taskId: string, rec: TaskRecord)
    ensures RunningIds(reg[taskId := rec]) - {taskId} == RunningIds(reg) - {taskId}
    ensures taskId in RunningIds(reg[taskId := rec]) <==> rec.status == Running
    ensures taskId in RunningIds(reg) <==> taskId in reg && reg[taskId].status == Running
  {
    var updated := reg[taskId := rec];
    forall k | k != taskId
      ensures k in RunningIds(updated) <==> k in RunningIds(reg)
    {
      assert k in updated <==> k in reg;
      if k in reg {
        assert updated[k] == reg[k];
      }
    }
  }

  /** Creating a task under a fresh id adds one to the total and leaves the active count alone. */
  lemma CreateCounts(reg: TaskRegistry, taskId: string, request: TaskRequest, createdAt: string)
    requires taskId !in reg
    ensures var after := CreateTask(reg, taskId, request, createdAt).registry;
            TotalTasks(after) == TotalTasks(reg) + 1 && ActiveTasks(after) == ActiveTasks(reg)
  {
    var c := CreateTask(reg, taskId, request, createdAt);
    ActiveAfterStore(reg, taskId, c.registry[taskId]);
  }

  /** Starting a pending task adds one to the active count; finishing it takes that one away again. */
  lemma ExecutionCounts(reg: TaskRegistry, taskId: string, description: string, callbackUrl: Option<string>,
                        timeout: Option<int>, clock: ExecClock, construct: Option<string>,
                        run: (string, Option<int>) -> RunOutcome, cleanup: CallOutcome)
    requires taskId in reg && reg[taskId].status == Pending
    ensures var e := ExecuteBrowserTask(reg, taskId, description, callbackUrl, timeout, clock, construct, run, cleanup);
            && ActiveTasks(reg[taskId := e.states[0]]) == ActiveTasks(reg) + 1
            && ActiveTasks(FinalRegistry(reg, taskId, e)) == ActiveTasks(reg)
            && TotalTasks(FinalRegistry(reg, taskId, e)) == TotalTasks(reg)
  {
    var e := ExecuteBrowserTask(reg, taskId, description, callbackUrl, timeout, clock, construct, run, cleanup);
    ActiveAfterStore(reg, taskId, e.states[0]);
    ActiveAfterStore(reg, taskId, Last(e.states));
    assert reg.Keys + {taskId} == reg.Keys;
  }

  // ---------------------------------------------------------------- health

  /** What the message processor contributed to the health check. */
  datatype ProcessorHealth =
    | NoProcessor
    | Reported(services: map<string, Json>)
    | HealthRaised(message: string)

  datatype HealthReport = HealthReport(status: string, timestamp: string, version: string, services: map<string, Json>)

  const ServiceVersion := "1.0.0"

  /** The service map the endpoint aggregates over. */
  function HealthServices(processor: ProcessorHealth): (services: map<string, Json>)
    ensures "fastapi" in services
    ensures processor.NoProcessor? ==> services == map["fastapi" := JBool(true), "sqs" := JBool(false),
                                                       "s3" := JBool(false), "api_client" := JBool(false)]
    ensures processor.Reported? ==> services.Keys == processor.services.Keys + {"fastapi"}
                                    && (forall k :: k in processor.services ==> services[k] == processor.services[k])
    ensures processor.Reported? && "fastapi" !in processor.services ==> services["fastapi"] == JBool(true)
    ensures processor.HealthRaised? ==> services == map["fastapi" := JBool(true), "aws_error" := JString(processor.message)]
  {
    var base := map["fastapi" := JBool(true)];
    match processor
    case NoProcessor => base["sqs" := JBool(false)]["s3" := JBool(false)]["api_client" := JBool(false)]
    case Reported(reported) => base + reported
    case HealthRaised(message) => base["aws_error" := JString(message)]
  }

  /** `health_check`: "degraded" iff some service value is falsy, else "healthy". */
  function HealthCheck(processor: ProcessorHealth, timestamp: string): (h: HealthReport)
    ensures h.services == HealthServices(processor) && h.version == ServiceVersion && h.timestamp == timestamp
    ensures h.status == "degraded" <==> exists k :: k in h.services && !Truthy(h.services[k])
    ensures h.status != "degraded" ==> h.status == "healthy"
  {
    var services := HealthServices(processor);
    var allHealthy := forall k :: k in services ==> Truthy(services[k]);
    HealthReport(if allHealthy then "healthy" else "degraded", timestamp, ServiceVersion, services)
  }

  /** Without a message processor the gateway always reports itself degraded. */
  lemma NoProcessorIsDegraded(timestamp: string)
    ensures HealthCheck(NoProcessor, timestamp).status == "degraded"
  {
    assert !Truthy(HealthServices(NoProcessor)["sqs"]);
  }

  /**
   As written, a health check that raised with a non-empty message is reported healthy:
   the message is stored as a service value, and a non-empty string is truthy.
   */
  lemma RaisedHealthCheckReportedHealthy(message: string, timestamp: string)
    requires message != ""
    ensures HealthCheck(HealthRaised(message), timestamp).status == "healthy"
  {
  }

  /** The evidently intended aggregation: a processor whose health check raised is degraded. */
  function HealthCheckCorrected(processor: ProcessorHealth, timestamp: string): (h: HealthReport)
    ensures h.services == HealthServices(processor)
    ensures processor.HealthRaised? ==> h.status == "degraded"
    ensures !processor.HealthRaised? ==> h == HealthCheck(processor, timestamp)
  {
    var h := HealthCheck(processor, timestamp);
    if processor.HealthRaised? then h.(status := "degraded") else h
  }

  // ---------------------------------------------------------------- service status

  datatype QueueStatus = QueueStatus(queueUrl: string, processing: bool)

  datatype ServiceStatusReport = ServiceStatusReport(
    name: string, version: string, uptime: string, activeTasks: nat, totalTasks: nat,
    configuration: seq<(string, string)>, sqs: Option<QueueStatus>)

  /**
   `get_service_status`. `processing` is the message processor's running flag, None
   when there is no processor; configuration values default only when unset.
   */
  function ServiceStatus(reg: TaskRegistry, env: map<string, string>, processing: Option<bool>, now: string): (s: ServiceStatusReport)
    ensures s.activeTasks == ActiveTasks(reg) && s.totalTasks == TotalTasks(reg) && s.activeTasks <= s.totalTasks
    ensures s.name == "browser-use-microservice" && s.version == ServiceVersion && s.uptime == now
    ensures |s.configuration| == 5
    ensures s.configuration[0] == ("max_concurrent_tasks", Getenv(env, "MAX_CONCURRENT_TASKS", "5"))
    ensures s.configuration[1] == ("default_timeout", Getenv(env, "DEFAULT_TIMEOUT", "300"))
    ensures s.configuration[2] == ("aws_region", Getenv(env, "AWS_REGION", "not_set"))
    ensures s.configuration[3] == ("s3_bucket", Getenv(env, "AWS_S3_BUCKET", "not_set"))
    ensures s.configuration[4] == ("api_base_url", Getenv(env, "API_BASE_URL", "not_set"))
    ensures s.sqs.Some? <==> processing.Some?
    ensures s.sqs.Some? ==> s.sqs.value == QueueStatus(Getenv(env, "AWS_SQS_QUEUE_URL", "not_set"), processing.value)
  {
    var config := [("max_concurrent_tasks", Getenv(env, "MAX_CONCURRENT_TASKS", "5")),
                   ("default_timeout", Getenv(env, "DEFAULT_TIMEOUT", "300")),
                   ("aws_region", Getenv(env, "AWS_REGION", "not_set")),
                   ("s3_bucket", Getenv(env, "AWS_S3_BUCKET", "not_set")),
                   ("api_base_url", Getenv(env, "API_BASE_URL", "not_set"))];
    ServiceStatusReport("browser-use-microservice", ServiceVersion, now, ActiveTasks(reg), TotalTasks(reg), config,
                        if processing.Some? then Some(QueueStatus(Getenv(env, "AWS_SQS_QUEUE_URL", "not_set"), processing.value)) else None)
  }

  // ---------------------------------------------------------------- queue test endpoint

  datatype SqsTestRequest = SqsTestRequest(projectId: string, flowId: string, url: string, prompt: string)

  datatype SqsTestReply = SqsTestReply(status: string, messageId: string, message: string)

  const NoQueueService := HttpError(503, "SQS service not available")
  /** The 500 raised for a missing message id, re-raised by the handler with `str()` of itself as detail. */
  const SendFailed := HttpError(500, "500: Failed to send message to SQS")

  /** The queue message the test endpoint sends. */
  function TestMessageBody(request: SqsTestRequest): (body: Json)
    ensures body.JObject? && body.fields.Keys == {"project_id", "flow_id", "url", "prompt"}
    ensures Get(body.fields, "url") == JString(request.url) && Get(body.fields, "prompt") == JString(request.prompt)
    ensures Get(body.fields, "project_id") == JString(request.projectId) && Get(body.fields, "flow_id") == JString(request.flowId)
  {
    JObject(map["project_id" := JString(request.projectId), "flow_id" := JString(request.flowId),
                "url" := JString(request.url), "prompt" := JString(request.prompt)])
  }

  /**
   `test_sqs_message`: 503 without a queue service; otherwise the message is sent and
   a non-empty id is a success, anything else a 500.
   */
  function TestSqsMessage(request: SqsTestRequest, service: Option<SqsService.SqsService>,
                          send: SqsService.SendRequest -> Outcome<Option<string>>): (r: Result<SqsTestReply, HttpError>)
    ensures service.None? ==> r == Failure(NoQueueService)
    ensures service.Some? ==>
              var id := SqsService.SendMessage(service.value, TestMessageBody(request), JNull, send);
              && (r.Success? <==> TruthyText(id))
              && (r.Success? ==> r.value.messageId == id.value && r.value.status == "success")
              && (r.Failure? ==> r.error == SendFailed)
  {
    match service
    case None => Failure(NoQueueService)
    case Some(svc) =>
      var id := SqsService.SendMessage(svc, TestMessageBody(request), JNull, send);
      if TruthyText(id) then Success(SqsTestReply("success", id.value, "Test message sent to SQS"))
      else Failure(SendFailed)
  }
}
