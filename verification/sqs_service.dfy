/**
 The queue client (services/sqs_service.py): construction from the environment, the
 receive-parse-validate step of `poll_messages`, and the never-raising `delete_message`
 and `send_message` wrappers. The queue itself is an oracle: every call into it is a
 function parameter returning a value or an exception.
 */
module SqsService {
  import opened Base
  import opened Strings
  import opened Json

  /** The queue's own batch limit; requests for more are capped to it. */
  const MaxBatch := 10
  /** The longest long-poll wait the client asks for, in seconds. */
  const MaxWait := 20
  const DefaultRegion := "us-east-1"
  const QueueUrlVar := "AWS_SQS_QUEUE_URL"
  const RegionVar := "AWS_REGION"

  /** A constructed client: the region and the (non-empty) queue URL it talks to. */
  datatype SqsService = SqsService(region: string, queueUrl: string)

  datatype ConfigError = MissingQueueUrl | ClientInitFailed(message: string)

  /**
   `SQSService.__init__`: fails when the queue URL variable is unset or empty, checked
   before the SDK client is created; `clientInit` is the outcome of creating that client.
   */
  function NewSqsService(env: map<string, string>, clientInit: CallOutcome): (r: Result<SqsService, ConfigError>)
    ensures r == Failure(MissingQueueUrl) <==> (QueueUrlVar !in env || env[QueueUrlVar] == "")
    ensures r.Success? <==> (QueueUrlVar in env && env[QueueUrlVar] != "" && clientInit.Completed?)
    ensures r.Success? ==> r.value.queueUrl == env[QueueUrlVar] && r.value.queueUrl != ""
    ensures r.Success? ==> (RegionVar in env ==> r.value.region == env[RegionVar])
    ensures r.Success? ==> (RegionVar !in env ==> r.value.region == DefaultRegion)
  {
    var region := Getenv(env, RegionVar, DefaultRegion);
    if QueueUrlVar !in env || env[QueueUrlVar] == "" then Failure(MissingQueueUrl)
    else match clientInit
      case Raised(e) => Failure(ClientInitFailed(e))
      case Completed => Success(SqsService(region, env[QueueUrlVar]))
  }

  // ---------------------------------------------------------------- receiving

  /** The parameters `poll_messages` hands to `receive_message`. */
  datatype ReceiveRequest = ReceiveRequest(queueUrl: string, maxMessages: int, waitTime: int)

  /**
   The request `poll_messages(max_messages, wait_time)` sends: both values are capped from
   above only (`min(max_messages, 10)`, `min(wait_time, 20)`); nothing clamps them from below.
   */
  function PollRequest(svc: SqsService, maxMessages: int, waitTime: int): (r: ReceiveRequest)
    ensures r.queueUrl == svc.queueUrl
    ensures r.maxMessages <= MaxBatch && r.maxMessages <= maxMessages
    ensures r.maxMessages == maxMessages || r.maxMessages == MaxBatch
    ensures r.waitTime <= MaxWait && r.waitTime <= waitTime
    ensures r.waitTime == waitTime || r.waitTime == MaxWait
  {
    ReceiveRequest(svc.queueUrl,
                   if maxMessages < MaxBatch then maxMessages else MaxBatch,
                   if waitTime < MaxWait then waitTime else MaxWait)
  }

  /**
   One received message as the SDK returns it. Each key may be absent; `body` is the raw
   JSON text.
   */
  datatype RawMessage = RawMessage(
    body: Option<string>,
    receiptHandle: Option<string>,
    messageId: Option<string>,
    attributes: Option<Json>,
    messageAttributes: Option<Json>)

  /**
   The receive call's outcome: the response's `Messages` list (None when the key is
   absent), or an exception.
   */
  type ReceiveOutcome = Outcome<Option<seq<RawMessage>>>

  /** A message that passed parsing and validation. */
  datatype ParsedMessage = ParsedMessage(
    receiptHandle: string,
    messageId: string,
    url: Json,
    flowId: Json,
    projectId: Json,
    prompt: Json,
    rawBody: map<string, Json>,
    attributes: Json,
    messageAttributes: Json)

  /** The four fields every dispatched message needs, each truthy in Python's sense. */
  predicate HasRequiredFields(p: ParsedMessage) {
    Truthy(p.url) && Truthy(p.flowId) && Truthy(p.projectId) && Truthy(p.prompt)
  }

  datatype SkipReason =
    | MissingBody            // message['Body'] raised KeyError
    | UndecodableBody        // json.loads raised JSONDecodeError
    | MissingReceiptHandle   // message['ReceiptHandle'] raised KeyError
    | NotAnObject            // the body decoded to a non-dict: `.get` raised AttributeError
    | MissingRequiredField   // validation failed

  /**
   What the loop body does with one message: keep it, skip it, or abort the whole poll.
   Abort happens when an exception handler itself raises: every handler logs
   `message['MessageId']`, so a message without an id escapes to the outer handler.
   */
  datatype Step = Keep(message: ParsedMessage) | Skip(reason: SkipReason) | Abort

  /** The per-message exception handlers: log (reading the message id) and continue. */
  function Handle(m: RawMessage, reason: SkipReason): Step
  {
    if m.messageId.None? then Abort else Skip(reason)
  }

  /** Every condition under which a received message becomes a parsed one. */
  predicate Acceptable(m: RawMessage, decode: string -> Option<Json>) {
    && m.body.Some? && m.receiptHandle.Some? && m.messageId.Some?
    && decode(m.body.value).Some? && decode(m.body.value).value.JObject?
    && var fields := decode(m.body.value).value.fields;
       Truthy(Get(fields, "url")) && Truthy(Get(fields, "flow_id"))
       && Truthy(Get(fields, "project_id")) && Truthy(Get(fields, "prompt"))
  }

  /**
   The body of the `for message in messages` loop, in the order Python evaluates it.
   `decode` stands for `json.loads` (None: a JSONDecodeError).
   */
  function ProcessMessage(m: RawMessage, decode: string -> Option<Json>): (s: Step)
    ensures s.Abort? <==> m.messageId.None?
    ensures s.Keep? <==> Acceptable(m, decode)
    ensures s.Keep? ==> HasRequiredFields(s.message)
    ensures s.Keep? ==> && s.message.receiptHandle == m.receiptHandle.value
                        && s.message.messageId == m.messageId.value
                        && decode(m.body.value) == Some(JObject(s.message.rawBody))
                        && s.message.url == Get(s.message.rawBody, "url")
                        && s.message.flowId == Get(s.message.rawBody, "flow_id")
                        && s.message.projectId == Get(s.message.rawBody, "project_id")
                        && s.message.prompt == Get(s.message.rawBody, "prompt")
    ensures m.messageId.Some? && m.body.Some? && decode(m.body.value).None? ==> s == Skip(UndecodableBody)
  {
    if m.body.None? then Handle(m, MissingBody)
    else match decode(m.body.value)
      case None => Handle(m, UndecodableBody)
      case Some(body) =>
        if m.receiptHandle.None? then Handle(m, MissingReceiptHandle)
        else if m.messageId.None? then Abort
        else if !body.JObject? then Skip(NotAnObject)
        else
          var p := ParsedMessage(
            m.receiptHandle.value, m.messageId.value,
            Get(body.fields, "url"), Get(body.fields, "flow_id"),
            Get(body.fields, "project_id"), Get(body.fields, "prompt"),
            body.fields,
            m.attributes.GetOr(JObject(map[])), m.messageAttributes.GetOr(JObject(map[])));
          if !HasRequiredFields(p) then Skip(MissingRequiredField) else Keep(p)
  }

  /**
   The parsed messages of one received batch, or None when some message aborts the loop
   (the outer handler then returns an empty list).
   */
  function ParseBatch(msgs: seq<RawMessage>, decode: string -> Option<Json>): (r: Option<seq<ParsedMessage>>)
    ensures r.Some? ==> |r.value| <= |msgs|
    ensures r.Some? ==> forall k :: 0 <= k < |r.value| ==> HasRequiredFields(r.value[k])
    decreases |msgs|
  {
    if |msgs| == 0 then Some([])
    else
      var rest := ParseBatch(msgs[1..], decode);
      match ProcessMessage(msgs[0], decode)
      case Abort => None
      case Skip(_) => rest
      case Keep(p) => if rest.None? then None else Some([p] + rest.value)
  }

  /** Appending both kinds of partial result: an abort anywhere aborts the whole. */
  function Concat(a: Option<seq<ParsedMessage>>, b: Option<seq<ParsedMessage>>): Option<seq<ParsedMessage>>
  {
    if a.Some? && b.Some? then Some(a.value + b.value) else None
  }

  /** Parsing distributes over concatenation of batches: messages are handled independently. */
  lemma {:induction false} ParseBatchAppend(a: seq<RawMessage>, b: seq<RawMessage>, decode: string -> Option<Json>)
    ensures ParseBatch(a + b, decode) == Concat(ParseBatch(a, decode), ParseBatch(b, decode))
    decreases |a|
  {
    if |a| == 0 {
      assert a + b == b;
      if ParseBatch(b, decode).Some? {
        assert [] + ParseBatch(b, decode).value == ParseBatch(b, decode).value;
      }
    } else {
      assert (a + b)[1..] == a[1..] + b;
      assert (a + b)[0] == a[0];
      ParseBatchAppend(a[1..], b, decode);
      match ProcessMessage(a[0], decode)
      case Abort =>
      case Skip(_) =>
      case Keep(p) =>
        var x := ParseBatch(a[1..], decode);
        var y := ParseBatch(b, decode);
        if x.Some? && y.Some? {
          assert [p] + (x.value + y.value) == ([p] + x.value) + y.value;
        }
    }
  }

  /** The outcome of a one-message batch is that message's step. */
  lemma ParseSingle(m: RawMessage, decode: string -> Option<Json>)
    ensures ParseBatch([m], decode) == match ProcessMessage(m, decode)
                                       case Abort => None
                                       case Skip(_) => Some([])
                                       case Keep(p) => Some([p])
  {
    assert [m][1..] == [];
    match ProcessMessage(m, decode)
    case Abort =>
    case Skip(_) =>
    case Keep(p) => assert [p] + [] == [p];
  }

  /** A poll's parse loop aborts exactly when some received message has no id. */
  lemma {:induction false} ParseBatchAbortsIff(msgs: seq<RawMessage>, decode: string -> Option<Json>)
    ensures ParseBatch(msgs, decode).None? <==> exists i :: 0 <= i < |msgs| && msgs[i].messageId.None?
    decreases |msgs|
  {
    if |msgs| > 0 {
      ParseBatchAbortsIff(msgs[1..], decode);
      assert forall i :: 1 <= i < |msgs| ==> msgs[i] == msgs[1..][i - 1];
      if exists i :: 1 <= i < |msgs| && msgs[i].messageId.None? {
        var i :| 1 <= i < |msgs| && msgs[i].messageId.None?;
        assert msgs[1..][i - 1].messageId.None?;
      }
    }
  }

  /**
   A message that is skipped (bad JSON, a non-object body, a missing field) leaves the
   outcome for the rest of its batch exactly as if it had not been received.
   */
  lemma SkippedMessageIsIsolated(a: seq<RawMessage>, m: RawMessage, b: seq<RawMessage>, decode: string -> Option<Json>)
    requires ProcessMessage(m, decode).Skip?
    ensures ParseBatch(a + [m] + b, decode) == ParseBatch(a + b, decode)
  {
    ParseBatchAppend(a + [m], b, decode);
    ParseBatchAppend(a, [m], decode);
    ParseBatchAppend(a, b, decode);
    ParseSingle(m, decode);
    if ParseBatch(a, decode).Some? {
      assert ParseBatch(a, decode).value + [] == ParseBatch(a, decode).value;
    }
  }

  /**
   There is no scan branch: a scan request, whose body carries no "prompt", is never kept,
   and it only drops the message itself (the rest of the batch is parsed as without it).
   */
  lemma ScanRequestDropped(a: seq<RawMessage>, m: RawMessage, b: seq<RawMessage>, decode: string -> Option<Json>)
    requires m.messageId.Some? && m.body.Some? && decode(m.body.value).Some?
    requires decode(m.body.value).value.JObject? && "prompt" !in decode(m.body.value).value.fields
    ensures ProcessMessage(m, decode).Skip?
    ensures ParseBatch(a + [m] + b, decode) == ParseBatch(a + b, decode)
  {
    SkippedMessageIsIsolated(a, m, b, decode);
  }

  /** The step each received message takes, in receipt order. */
  function Steps(msgs: seq<RawMessage>, decode: string -> Option<Json>): (steps: seq<Step>)
    ensures |steps| == |msgs|
  {
    seq(|msgs|, i requires 0 <= i < |msgs| => ProcessMessage(msgs[i], decode))
  }

  /** The kept messages of a sequence of steps, or None when a step aborts. */
  function KeptOf(steps: seq<Step>): Option<seq<ParsedMessage>>
    decreases |steps|
  {
    if |steps| == 0 then Some([])
    else
      var rest := KeptOf(steps[1..]);
      match steps[0]
      case Abort => None
      case Skip(_) => rest
      case Keep(p) => if rest.None? then None else Some([p] + rest.value)
  }

  /** Parsing a batch is keeping the kept steps of its messages. */
  lemma {:induction false} ParseBatchIsKept(msgs: seq<RawMessage>, decode: string -> Option<Json>)
    ensures ParseBatch(msgs, decode) == KeptOf(Steps(msgs, decode))
    decreases |msgs|
  {
    if |msgs| > 0 {
      ParseBatchIsKept(msgs[1..], decode);
      assert Steps(msgs, decode)[1..] == Steps(msgs[1..], decode);
    }
  }

  /**
   `idx` locates each output message among the steps: positions strictly increase, each
   output is the message kept at its position, and every kept step appears.
   */
  predicate IsOrigin(steps: seq<Step>, out: seq<ParsedMessage>, idx: seq<nat>) {
    && |idx| == |out|
    && (forall k :: 0 <= k < |idx| ==> idx[k] < |steps| && steps[idx[k]] == Keep(out[k]))
    && (forall k, l :: 0 <= k < l < |idx| ==> idx[k] < idx[l])
    && (forall i :: 0 <= i < |steps| && steps[i].Keep? ==> i in idx)
  }

  /** The positions of the kept steps, in order. */
  function KeptPositions(steps: seq<Step>): seq<nat>
    decreases |steps|
  {
    if |steps| == 0 then []
    else
      var tail := KeptPositions(steps[1..]);
      var shifted := seq(|tail|, k requires 0 <= k < |tail| => tail[k] + 1);
      if steps[0].Keep? then [0] + shifted else shifted
  }

  /** The kept messages form an order-preserving subsequence of the steps. */
  lemma {:induction false} KeptIsOrderedSubsequence(steps: seq<Step>)
    requires KeptOf(steps).Some?
    ensures IsOrigin(steps, KeptOf(steps).value, KeptPositions(steps))
    decreases |steps|
  {
    if |steps| > 0 {
      var rest := steps[1..];
      KeptIsOrderedSubsequence(rest);
      var tail := KeptPositions(rest);
      var shifted := seq(|tail|, k requires 0 <= k < |tail| => tail[k] + 1);
      ShiftedOrigins(steps, KeptOf(rest).value, tail, shifted);
      if steps[0].Keep? {
        ConsOrigin(steps, KeptOf(rest).value, shifted, steps[0].message);
      }
    }
  }

  /** Shifting the tail's positions by one relocates them among all the steps. */
  lemma ShiftedOrigins(steps: seq<Step>, tailOut: seq<ParsedMessage>, tail: seq<nat>, shifted: seq<nat>)
    requires |steps| > 0
    requires IsOrigin(steps[1..], tailOut, tail)
    requires |shifted| == |tail| && forall k :: 0 <= k < |tail| ==> shifted[k] == tail[k] + 1
    ensures |shifted| == |tailOut|
    ensures forall k :: 0 <= k < |shifted| ==> 0 < shifted[k] < |steps| && steps[shifted[k]] == Keep(tailOut[k])
    ensures forall k, l :: 0 <= k < l < |shifted| ==> shifted[k] < shifted[l]
    ensures forall i :: 1 <= i < |steps| && steps[i].Keep? ==> i in shifted
  {
    forall i | 1 <= i < |steps| && steps[i].Keep? ensures i in shifted {
      assert steps[1..][i - 1] == steps[i];
      var k :| 0 <= k < |tail| && tail[k] == i - 1;
      assert shifted[k] == i;
    }
  }

  /** Prepending a kept first step to an origin map of the rest. */
  lemma ConsOrigin(steps: seq<Step>, tailOut: seq<ParsedMessage>, shifted: seq<nat>, p: ParsedMessage)
    requires |steps| > 0 && steps[0] == Keep(p)
    requires |shifted| == |tailOut|
    requires forall k :: 0 <= k < |shifted| ==> 0 < shifted[k] < |steps| && steps[shifted[k]] == Keep(tailOut[k])
    requires forall k, l :: 0 <= k < l < |shifted| ==> shifted[k] < shifted[l]
    requires forall i :: 1 <= i < |steps| && steps[i].Keep? ==> i in shifted
    ensures IsOrigin(steps, [p] + tailOut, [0] + shifted)
  {
    var idx := [0] + shifted;
    assert forall k :: 1 <= k < |idx| ==> idx[k] == shifted[k - 1];
  }

  /**
   The output of a poll that does not abort is an order-preserving subsequence of the
   received messages: the k-th output comes from message `idx[k]`, keeps its receipt
   handle and id, and carries its decoded body; every acceptable message is output.
   */
  lemma ParseBatchIsOrderedSubsequence(msgs: seq<RawMessage>, decode: string -> Option<Json>)
    requires ParseBatch(msgs, decode).Some?
    ensures var out := ParseBatch(msgs, decode).value;
            var idx := KeptPositions(Steps(msgs, decode));
            && IsOrigin(Steps(msgs, decode), out, idx)
            && (forall k :: 0 <= k < |out| ==> && msgs[idx[k]].receiptHandle == Some(out[k].receiptHandle)
                                               && msgs[idx[k]].messageId == Some(out[k].messageId)
                                               && msgs[idx[k]].body.Some?
                                               && decode(msgs[idx[k]].body.value) == Some(JObject(out[k].rawBody)))
            && (forall i :: 0 <= i < |msgs| && Acceptable(msgs[i], decode) ==> i in idx)
  {
    ParseBatchIsKept(msgs, decode);
    var steps := Steps(msgs, decode);
    KeptIsOrderedSubsequence(steps);
    var out := ParseBatch(msgs, decode).value;
    var idx := KeptPositions(steps);
    forall k | 0 <= k < |out|
      ensures && msgs[idx[k]].receiptHandle == Some(out[k].receiptHandle)
              && msgs[idx[k]].messageId == Some(out[k].messageId)
              && msgs[idx[k]].body.Some?
              && decode(msgs[idx[k]].body.value) == Some(JObject(out[k].rawBody))
    {
      assert steps[idx[k]] == ProcessMessage(msgs[idx[k]], decode);
    }
    forall i | 0 <= i < |msgs| && Acceptable(msgs[i], decode) ensures i in idx {
      assert steps[i] == ProcessMessage(msgs[i], decode);
    }
  }

  /**
   `poll_messages`: one receive call with the capped request, then the parse loop.
   A failing receive, or a message whose handling aborts the loop, yields an empty list;
   otherwise the result is the parse of the received batch.
   */
  method PollMessages(svc: SqsService, maxMessages: int, waitTime: int,
                      receive: ReceiveRequest -> ReceiveOutcome,
                      decode: string -> Option<Json>)
    returns (parsed: seq<ParsedMessage>)
    ensures receive(PollRequest(svc, maxMessages, waitTime)).Threw? ==> parsed == []
    ensures forall k :: 0 <= k < |parsed| ==> HasRequiredFields(parsed[k])
    ensures receive(PollRequest(svc, maxMessages, waitTime)).Got? ==>
              var msgs := receive(PollRequest(svc, maxMessages, waitTime)).value.GetOr([]);
              parsed == ParseBatch(msgs, decode).GetOr([])
  {
    var response := receive(PollRequest(svc, maxMessages, waitTime));
    if response.Threw? {
      return [];
    }
    var messages := response.value.GetOr([]);
    ghost var steps := Steps(messages, decode);
    parsed := [];
    var i := 0;
    while i < |messages|
      invariant 0 <= i <= |messages|
      invariant KeptOf(steps[..i]) == Some(parsed)
    {
      KeptSnoc(steps[..i], steps[i]);
      assert steps[..i + 1] == steps[..i] + [steps[i]];
      match ProcessMessage(messages[i], decode) {
        case Abort =>
          KeptAbortedPrefix(steps[..i + 1], steps[i + 1..]);
          assert steps[..i + 1] + steps[i + 1..] == steps;
          ParseBatchIsKept(messages, decode);
          return [];
        case Skip(_) =>
        case Keep(p) =>
          parsed := parsed + [p];
      }
      i := i + 1;
    }
    assert steps[..i] == steps;
    ParseBatchIsKept(messages, decode);
  }

  /** Keeping the steps of a batch extended by one more step. */
  lemma {:induction false} KeptSnoc(steps: seq<Step>, x: Step)
    ensures KeptOf(steps + [x]) == match x
                                   case Abort => None
                                   case Skip(_) => KeptOf(steps)
                                   case Keep(p) => if KeptOf(steps).None? then None else Some(KeptOf(steps).value + [p])
    decreases |steps|
  {
    if |steps| == 0 {
      assert steps + [x] == [x];
      assert [x][1..] == [];
      if x.Keep? {
        assert [x.message] + [] == [] + [x.message];
      }
    } else {
      assert (steps + [x])[1..] == steps[1..] + [x];
      KeptSnoc(steps[1..], x);
      if steps[0].Keep? && KeptOf(steps[1..]).Some? && x.Keep? {
        assert [steps[0].message] + (KeptOf(steps[1..]).value + [x.message])
            == ([steps[0].message] + KeptOf(steps[1..]).value) + [x.message];
      }
    }
  }

  /** Once a prefix aborts, the whole aborts. */
  lemma {:induction false} KeptAbortedPrefix(prefix: seq<Step>, rest: seq<Step>)
    requires KeptOf(prefix).None?
    ensures KeptOf(prefix + rest).None?
    decreases |prefix|
  {
    assert (prefix + rest)[1..] == prefix[1..] + rest;
    if prefix[0] != Abort {
      KeptAbortedPrefix(prefix[1..], rest);
    }
  }

  // ---------------------------------------------------------------- acknowledging and sending

  datatype DeleteRequest = DeleteRequest(queueUrl: string, receiptHandle: string)

  /** `delete_message`: True iff the delete call completed; an SDK exception gives False. */
  function DeleteMessage(svc: SqsService, receiptHandle: string, delete: DeleteRequest -> CallOutcome): (ok: bool)
    ensures ok <==> delete(DeleteRequest(svc.queueUrl, receiptHandle)).Completed?
  {
    match delete(DeleteRequest(svc.queueUrl, receiptHandle))
    case Completed => true
    case Raised(_) => false
  }

  /** The parameters `send_message` passes to the SDK. */
  datatype SendRequest = SendRequest(queueUrl: string, messageBody: Json, messageAttributes: Option<Json>)

  /** Message attributes are passed only when the caller's value is truthy. */
  function SendRequestFor(svc: SqsService, body: Json, attributes: Json): (r: SendRequest)
    ensures r.queueUrl == svc.queueUrl && r.messageBody == body
    ensures r.messageAttributes.Some? <==> Truthy(attributes)
    ensures r.messageAttributes.Some? ==> r.messageAttributes.value == attributes
  {
    SendRequest(svc.queueUrl, body, if Truthy(attributes) then Some(attributes) else None)
  }

  /**
   `send_message`: the queue-assigned id, or None when the call raised or its response
   lacks `MessageId` (a KeyError inside the same handler).
   */
  function SendMessage(svc: SqsService, body: Json, attributes: Json,
                       send: SendRequest -> Outcome<Option<string>>): (id: Option<string>)
    ensures id.Some? <==> (send(SendRequestFor(svc, body, attributes)).Got?
                           && send(SendRequestFor(svc, body, attributes)).value.Some?)
    ensures id.Some? ==> id == send(SendRequestFor(svc, body, attributes)).value
  {
    match send(SendRequestFor(svc, body, attributes))
    case Threw(_) => None
    case Got(messageId) => messageId
  }
}
