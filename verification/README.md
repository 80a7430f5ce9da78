# Browser-automation microservice: the decision rules, in Dafny

This project models the pure decision rules inside a Python microservice. The service
takes browser-automation requests from an AWS SQS queue or over HTTP, runs them through a
browser agent, uploads media to S3, reports results to a callback API, and can scan
websites. Everything that talks to the outside world is a parameter of the model:

- the SQS receive/delete/send calls, the S3 upload, the HTTP posts and gets;
- `json.loads`, `mimetypes.guess_type`, `os.path.exists`, `int()`;
- the clock, uuid generation, the browser agent, the LLM and the browser page.

Each parameter returns either a value or an exception (`Outcome`, `CallOutcome`,
`HttpOutcome`). What remains is modelled as immutable datatypes and pure functions, with
contracts and lemmas about them.

Modules, one per source file plus shared pieces:

- `Base`: `Option`, `Result` and the outcome types.
- `Strings`: Python's `split`, `join`, `strip`/`rstrip`, `startswith`, `in` and
  `os.getenv` on `seq<char>`, with split/join round trips.
- `Json`: decoded JSON values and Python truthiness.
- `SqsService` (`services/sqs_service.py`):
  - construction from the environment;
  - capping of the receive request;
  - the parse/validate/filter loop of `poll_messages`;
  - the never-raising `delete_message` and `send_message`.
- `S3Service` (`services/s3_service.py`):
  - object-key construction and extension inference;
  - metadata-key normalisation and the default keys;
  - public URLs;
  - `upload_file` and the one-entry-per-path `upload_multiple_files`.
- `ApiClient` (`services/api_client.py`):
  - base-URL normalisation;
  - the two callback endpoints and their optional payload fields;
  - progress clamping;
  - the 200/201/202 success rule;
  - the two-step health probe.
- `Gateway` (`app.py`):
  - the task registry `map<string, TaskRecord>` and the pending → running →
    completed/failed execution, including the `finally` block as written;
  - webhook payloads;
  - health aggregation;
  - the status counts;
  - the queue test endpoint.
- `ScanTrees`: DOM depth and the accessibility-node count, with their meaning proved: the
  depth is the longest element chain, and the count is the number of distinct reached
  nodes.
- `WebsiteScanner` (`services/website_scanner.py`):
  - which sections each `scan_type` produces;
  - per-section and per-item error isolation;
  - the truncation bounds;
  - the failed-scan shape.

### Where the code disagrees with its own neighbours

The model follows the code in each of these cases.

- **Scan messages.** The queue producer in `microservice/examples/scanning_examples.py:50-60`
  sends messages with `"type": "scan"` and no `prompt`, and comments that the type tells
  the processor it is a scanning task. `poll_messages` (`services/sqs_service.py:83-86`)
  has no branch on `type` and requires a truthy `prompt`, so such a message is dropped
  like any message missing a field (`SqsService.ScanRequestDropped`).
- **Health status.** `health_check` (`app.py:248-257`) marks the service degraded when a
  service value is falsy. When the processor's own check raises, the handler stores the
  error text under `aws_error`. That text is truthy, so the overall status comes out
  "healthy" (Finding 2).
- **Cleanup.** The `finally` block at `app.py:122-124` is commented as cleaning up the
  agent's resources. `BrowserAgentService` defines no `cleanup_temp_files`
  (`services/browser_agent.py`), so the call raises on every run that constructed an
  agent (Finding 1).
- **Timeout.** `TaskRequest.timeout` (`app.py:31`) is documented as a five-minute default.
  `execute_browser_task` only forwards it to `run_task` (`app.py:101-103`) and enforces no
  deadline itself, so a timeout is whatever the agent raises or returns.

## Model

| member | source | states |
|---|---|---|
| SqsService.NewSqsService | microservice/services/sqs_service.py:16-37 | construction fails with the missing-queue error iff the queue URL variable is unset or empty; it succeeds iff that URL is set and the client was created; the region is `AWS_REGION` or "us-east-1" |
| SqsService.PollRequest | microservice/services/sqs_service.py:55-56 | the requested batch size is `min(max_messages, 10)` and the wait `min(wait_time, 20)`: never above the cap or the request, equal to one of them, with no lower clamp |
| SqsService.ProcessMessage | microservice/services/sqs_service.py:66-95 | a message is kept iff body, receipt handle and id are present, the body decodes to an object and url/flow_id/project_id/prompt are truthy; it aborts the poll iff its id is missing; a kept message carries its own handle, id and decoded body, and an undecodable body is skipped |
| SqsService.ParseBatch | microservice/services/sqs_service.py:65-97 | every message a batch keeps has the four required fields, and a batch keeps at most as many messages as it received |
| SqsService.ParseBatchAppend | microservice/services/sqs_service.py:66-95 | messages are handled independently: parsing a concatenation is the concatenation of the parses, and an abort in either part aborts the whole |
| SqsService.ParseBatchAbortsIff | microservice/services/sqs_service.py:90-104 | the loop ends in the outer handler (empty result) iff some received message has no MessageId, because every per-message handler reads it |
| SqsService.SkippedMessageIsIsolated | microservice/services/sqs_service.py:90-95 | removing a skipped message (bad body, non-object body, missing field) from any batch changes nothing about the rest of the batch's result |
| SqsService.ScanRequestDropped | microservice/services/sqs_service.py:83-86 | a message whose decoded body has no "prompt" key, as scan requests have, is skipped, and the batch is parsed as if it were absent |
| SqsService.ParseBatchIsOrderedSubsequence | microservice/services/sqs_service.py:65-88 | the parsed list is an order-preserving subsequence of the received list: each output comes from a strictly later message than the one before, keeps that message's receipt handle and id, has as raw body that message's decoded body, and every acceptable message appears |
| SqsService.PollMessages | microservice/services/sqs_service.py:50-104 | a failing receive yields [], a batch that aborts yields [], otherwise the result is exactly the batch parse of the received messages (an absent `Messages` key reads as none), all with the required fields |
| SqsService.DeleteMessage | microservice/services/sqs_service.py:116-132 | True iff the delete call, made with the queue URL and the receipt handle, completed; an exception gives False, never an escape |
| SqsService.SendRequestFor | microservice/services/sqs_service.py:147-153 | the send request carries the queue URL and the body, and message attributes iff the caller's value is truthy |
| SqsService.SendMessage | microservice/services/sqs_service.py:146-169 | the result is Some exactly when the send call returned a message id, and is then that id; any exception gives None |
| S3Service.NewS3Service | microservice/services/s3_service.py:17-38 | construction fails with the missing-bucket error iff `AWS_S3_BUCKET` is unset or empty; the region is `AWS_S3_REGION`, else `AWS_REGION`, else "us-east-1" |
| S3Service.Extension | microservice/services/s3_service.py:58 | `os.path.splitext` for POSIX paths: the extension is empty or a '.'-led suffix of the name with no further '.' or '/', and it is preceded by a stem holding a non-dot character in the last path component |
| S3Service.ExtensionOfDottedName | microservice/services/s3_service.py:58 | for a name made of such a stem, a '.', and a dot- and slash-free tail, the extension is exactly "." + tail |
| S3Service.Basename | microservice/services/s3_service.py:90 | `os.path.basename`: a slash-free suffix of the path that is the whole path when it has no '/', and otherwise is preceded by a '/', so it is everything after the last '/' |
| S3Service.InferExtension | microservice/services/s3_service.py:57-66 | the file's own extension when it has one; otherwise ".png" iff the guessed type contains "image", ".mp4" iff it contains no "image" but contains "video", else "" |
| S3Service.GenerateKey | microservice/services/s3_service.py:40-69 | the key starts with "browser-automation/" and, whatever the ids hold, it ends with '/', `{timestamp}_`, at most the first 8 characters of the uuid and the inferred extension; for slash-free ids it splits on '/' into exactly browser-automation, file type, project, flow, `{timestamp}_{uid}{ext}` |
| S3Service.KeySegments | microservice/services/s3_service.py:68-69 | joining the five key segments with '/' gives the prefix and the extension, and splitting it again returns the five segments when they are slash-free |
| S3Service.NormalizeKey | microservice/services/s3_service.py:110 | position by position: spaces and hyphens become '_', upper-case letters are lowered, every other character is kept, and the result contains no upper case, space or hyphen |
| S3Service.NormalizeKeyIdempotent | microservice/services/s3_service.py:110 | normalising a normalised key changes nothing |
| S3Service.UserMetadata | microservice/services/s3_service.py:106-112 | the metadata keys are exactly the normalised user keys |
| S3Service.UserMetadataLastWins | microservice/services/s3_service.py:109-111 | when two user keys normalise alike, the later one's stringified value is kept |
| S3Service.BuildMetadata | microservice/services/s3_service.py:105-121 | the keys are the normalised user keys plus project_id, flow_id, upload_timestamp and original_filename; those four always carry the upload's values, overriding user keys; every other key keeps its user value and is normalised |
| S3Service.ContentType | microservice/services/s3_service.py:94-96 | the guessed type when one is guessed, else "application/octet-stream"; never empty |
| S3Service.PublicUrl | microservice/services/s3_service.py:130 | the URL starts with `https://{bucket}.s3.{region}.amazonaws.com/` and ends with the key |
| S3Service.KeyOfPublicUrl | microservice/services/s3_service.py:130 | the key can be read back from the public URL, so distinct keys give distinct URLs |
| S3Service.UploadRequestFor | microservice/services/s3_service.py:89-121 | the upload names the local path and the bucket, and uses the key from the basename with file type "media", the content type of the path, and the full metadata |
| S3Service.UploadFile | microservice/services/s3_service.py:85-140 | the result is a URL iff the file exists and the upload completed, and it is then the public URL of the generated key; a missing file or any upload error gives None |
| S3Service.EntryFor | microservice/services/s3_service.py:159-175 | an entry names its path; its error is absent iff its URL is present; a missing file gives the "File not found" entry with no filename; otherwise the filename is the basename and the URL is the upload's |
| S3Service.UploadMultipleFiles | microservice/services/s3_service.py:156-177 | exactly one entry per input path, in input order, each the entry for its own path, with error absent iff URL present |
| ApiClient.NewApiClient | microservice/services/api_client.py:14-22 | construction succeeds iff `WEBHOOK_TIMEOUT` (default "30") parses and `API_BASE_URL` is set and non-empty; an unparsable timeout fails first, with its text; the timeout is the parsed value; the base URL is the variable with trailing '/' removed, and only '/' characters were removed |
| ApiClient.BaseUrlNormalised | microservice/services/api_client.py:22 | a constructed client's base URL has no trailing '/': stripping it again changes nothing |
| ApiClient.SessionResultUrlSegments | microservice/services/api_client.py:55 | for slash-free ids the session URL splits on '/' into the base URL's pieces followed by project, id, flow, id, session, create |
| ApiClient.StatusUrlSegments | microservice/services/api_client.py:110 | for slash-free ids the status URL splits on '/' into the base URL's pieces followed by project, id, flow, id, status |
| ApiClient.SessionAndStatusUrlsDiffer | microservice/services/api_client.py:110 | for one flow and any ids, the status endpoint is never the session endpoint of line 55, since one ends in "create" and the other in "status" |
| ApiClient.SessionPayloadFor | microservice/services/api_client.py:58-70 | the session payload always has agent_history, media_urls, status, timestamp and microservice_version "1.0"; error and metadata are present iff truthy, and then hold the caller's values |
| ApiClient.SendSessionResult | microservice/services/api_client.py:54-91 | one POST of that payload to the session URL; the answer is true iff that POST got status 200, 201 or 202; timeouts, request errors and other exceptions give false |
| ApiClient.ClampProgress | microservice/services/api_client.py:118 | the progress lies in [0, 100], equals the input when that is in range, and is 0 below and 100 above |
| ApiClient.StatusPayloadFor | microservice/services/api_client.py:112-121 | status and timestamp always; progress present iff given (0 included), and then the given value clamped to [0, 100]; message present iff truthy, and then the given text |
| ApiClient.StatusPayloadStable | microservice/services/api_client.py:112-121 | sending a payload's own progress and message again builds the same payload, so clamping and the optional-key rules are a fixed point |
| ApiClient.SendStatusUpdate | microservice/services/api_client.py:109-142 | one POST of that payload to the status URL; true iff the response status is 200, 201 or 202; every exception gives false |
| ApiClient.HealthCheck | microservice/services/api_client.py:151-166 | a 200 from `{base}/health` is healthy; an exception there is unhealthy; any other status falls back to the base URL, healthy iff that answers below 500 |
| Gateway.CreateTask | microservice/app.py:166-192 | the new id maps to a pending record with the request's task and callback, a creation time and neither result nor error; no other entry changes; a fresh id adds exactly one entry; the response is pending/"Task created and queued for execution"; the scheduled job carries the request's task, callback and timeout |
| Gateway.GetTaskStatus | microservice/app.py:197-200 | an unknown id is the 404 "Task not found"; a known id returns its stored record unchanged |
| Gateway.CreatedTaskIsPending | microservice/app.py:166-200 | looking up a task just created finds it pending, with neither result nor error |
| Gateway.WebhookPayloadFor | microservice/app.py:146-156 | task_id, status and timestamp always; result, error and agent_history present iff truthy, with the caller's values |
| Gateway.HooksFor | microservice/app.py:138-139 | a webhook is sent iff the callback URL is truthy, at most one per notification, to that URL |
| Gateway.FailRecord | microservice/app.py:130-135 | the failure update sets failed, no result, the error text and a completion time, and keeps every other field, including agent_history and media_files |
| Gateway.ExecuteBrowserTask | microservice/app.py:89-139 | for any agent, cleanup and clock: the task first becomes running with its start time; it ends completed iff the agent was built and returned and cleanup completed, else failed; a cleanup failure after success goes through completed then failed; the error is the construction's, else the cleanup's, else the run's message; the completed record adds the summary, history, media count and completion time to the running record, and a failed record after two states is the running record with only the four failure keys changed; with a truthy callback one webhook goes per state change after running, none otherwise; every webhook goes to the callback URL with the task's id; the completed webhook carries the summary and history, the failed one the record's error text, and the last one carries the final status |
| Gateway.TerminalRecordExclusive | microservice/app.py:106-135 | a finished record is completed with a result and no error, or failed with an error and no result, and has a completion time |
| Gateway.ExecuteAsWritten | microservice/app.py:122-124 | with the `finally` block as written, every execution ends failed |
| Gateway.AsWrittenSuccessEndsFailed | microservice/app.py:106-135 | as written, an agent that returns leaves the task completed and then failed with the missing-attribute message; with a truthy callback, a completed webhook is followed by a failed one |
| Gateway.ExecuteCorrected | microservice/app.py:99-135 | without the undefined cleanup call, there are exactly two states and at most one webhook, and the task completes iff the agent was built and returned |
| Gateway.CorrectedSuccessCompletes | microservice/app.py:106-113 | without it, a returning agent leaves the task completed with its summary, history, media count and no error |
| Gateway.TaskLifecycle | microservice/app.py:89-192 | after creating a task and executing it, looking it up succeeds, finds it completed or failed with its creation time kept, and every other task's lookup is as before |
| Gateway.ActiveTasks | microservice/app.py:271 | the active count never exceeds the total count |
| Gateway.ActiveAfterStore | microservice/app.py:271 | storing a record changes the active count by exactly the change in that entry's running-ness |
| Gateway.CreateCounts | microservice/app.py:271-272 | creating a task under a fresh id adds one to the total and leaves the active count unchanged |
| Gateway.ExecutionCounts | microservice/app.py:271-272 | starting a pending task adds one to the active count, finishing it takes that one away, and the total never moves |
| Gateway.HealthServices | microservice/app.py:238-254 | fastapi is always present; it is true unless a processor's report carries its own fastapi entry, which wins; with no processor, sqs, s3 and api_client are false; every reported entry appears unchanged; a raised check adds only aws_error with its message |
| Gateway.HealthCheck | microservice/app.py:231-261 | the status is "degraded" iff some service value is falsy, else "healthy", with version "1.0.0" |
| Gateway.NoProcessorIsDegraded | microservice/app.py:251-259 | without a message processor the service always reports degraded |
| Gateway.RaisedHealthCheckReportedHealthy | microservice/app.py:248-257 | as written, a processor health check raising with a non-empty message is reported healthy |
| Gateway.HealthCheckCorrected | microservice/app.py:248-259 | the intended aggregation reports a raised health check as degraded and agrees with the source everywhere else |
| Gateway.ServiceStatus | microservice/app.py:263-290 | the counts are the active and total tasks, with active ≤ total; the five configuration entries take their variables or their defaults 5, 300 and not_set; the sqs block is present iff a processor exists and reports its running flag |
| Gateway.TestMessageBody | microservice/app.py:209-214 | the test message is an object with exactly project_id, flow_id, url and prompt, holding the request's values |
| Gateway.TestSqsMessage | microservice/app.py:202-229 | no processor gives 503; the reply is a success iff the send returned a truthy message id, and then carries that id; otherwise it is the 500 "Failed to send message to SQS" as the handler re-raises it (the send itself never raises) |
| ScanTrees.DomDepth | microservice/services/website_scanner.py:431-439 | the depth is 0 exactly for a missing node or one without `children`, and 1 for a leaf |
| ScanTrees.ElementPathBelowDepth | microservice/services/website_scanner.py:431-439 | every chain of element children from the root is shorter than the depth |
| ScanTrees.DeepestElementPath | microservice/services/website_scanner.py:431-439 | some chain of element children reaches depth − 1 nodes below the root, so the depth is the longest chain |
| ScanTrees.CountAx | microservice/services/website_scanner.py:441-450 | the count is 0 exactly for a falsy node (None or an empty dict) |
| ScanTrees.Kids | microservice/services/website_scanner.py:447 | a node's children are its `children` list when the key is present, and none when the key is absent or the node is None |
| ScanTrees.CountIsPathCount | microservice/services/website_scanner.py:441-450 | the count equals the number of listed reached nodes |
| ScanTrees.AxPathsExact | microservice/services/website_scanner.py:441-450 | the listed paths are exactly the nodes reachable through truthy nodes along `children` lists |
| ScanTrees.AxPathsDistinct | microservice/services/website_scanner.py:441-450 | no reached node is listed twice; with the two lemmas above, the count is the number of distinct non-empty nodes reached |
| WebsiteScanner.OrDefault | microservice/services/website_scanner.py:177 | `value or default`: the value when it is present and non-empty, else the default |
| WebsiteScanner.HeadingTag | microservice/services/website_scanner.py:154 | the tag is 'h' followed by the level's digit |
| WebsiteScanner.HeadingOf | microservice/services/website_scanner.py:149-155 | a heading element yields nothing iff its stripped text is blank; otherwise an entry with its level, tag and stripped text, which is its own strip |
| WebsiteScanner.LevelHeadings | microservice/services/website_scanner.py:146-155 | every entry of one level is a clean heading of that level, at most one per element |
| WebsiteScanner.LevelHeadingsAppend | microservice/services/website_scanner.py:148-155 | the headings of consecutive elements are the concatenation of each part's headings, so entries keep element order |
| WebsiteScanner.LevelHeadingsSingle | microservice/services/website_scanner.py:149-155 | one element adds the entry (level, stripped text, tag) iff its stripped text is not blank, and nothing otherwise |
| WebsiteScanner.HeadingsFrom | microservice/services/website_scanner.py:145-156 | the headings list is ordered by level from h1 to h6, and each entry is clean |
| WebsiteScanner.HeadingsOfLevel | microservice/services/website_scanner.py:145-156 | the entries of level L in the headings list are exactly the headings of the `h{L}` elements, in element order |
| WebsiteScanner.Internal | microservice/services/website_scanner.py:168 | a link starting with '/' is internal without reading the page URL; otherwise reading `split('/')[2]` raises IndexError iff the page URL has fewer than three '/'-pieces, and when it has three the link is internal iff that third piece occurs in it |
| WebsiteScanner.LinkEntry | microservice/services/website_scanner.py:161-169 | one element fails iff it needs the host and the page URL has none; otherwise it gives a link iff its href is truthy, with that href, the stripped text and the internal flag of its href |
| WebsiteScanner.LinkEntries | microservice/services/website_scanner.py:160-169 | one entry per link element, in element order, each failing only with the IndexError |
| WebsiteScanner.AllLinks | microservice/services/website_scanner.py:158-170 | the links fail only with the IndexError; otherwise there are at most as many links as elements, each with a non-empty url |
| WebsiteScanner.CollectAppend | microservice/services/website_scanner.py:158-170 | collecting two runs of element entries gives the first run's failure, else the second's, else both runs' values in order |
| WebsiteScanner.AllLinksAppend | microservice/services/website_scanner.py:158-170 | the links of consecutive elements are the links of each run concatenated in element order, unless an earlier IndexError wins |
| WebsiteScanner.AllLinksSingle | microservice/services/website_scanner.py:161-169 | one element's links are exactly its own entry, so with the append lemma a successful list is the in-order concatenation of the element entries |
| WebsiteScanner.AllLinksFailAt | microservice/services/website_scanner.py:158-170 | the link list fails iff some single element's entry fails |
| WebsiteScanner.AllLinksFailIff | microservice/services/website_scanner.py:168 | the link list fails iff some element with a truthy href not starting with '/' exists and the page URL has fewer than three pieces |
| WebsiteScanner.AllImages | microservice/services/website_scanner.py:172-183 | only images with a truthy src are listed, at most one per element |
| WebsiteScanner.AllImagesAppend | microservice/services/website_scanner.py:172-183 | the images of consecutive elements are the images of each run concatenated in element order |
| WebsiteScanner.AllImagesSingle | microservice/services/website_scanner.py:175-182 | one element gives the image (src, alt or "") iff its src is truthy, and nothing otherwise |
| WebsiteScanner.GoalEntry | microservice/services/website_scanner.py:196-202 | one goal's value is the model's answer, or "Extraction failed: " plus the exception text |
| WebsiteScanner.GoalExtractions | microservice/services/website_scanner.py:186-204 | one entry per distinct goal, each from the model's answer on that goal and the first 8000 characters of the markdown |
| WebsiteScanner.GoalExtractionsSeePrefixOnly | microservice/services/website_scanner.py:197 | two pages whose markdown agrees on its first 8000 characters get the same goal extractions |
| WebsiteScanner.ExtractContent | microservice/services/website_scanner.py:124-210 | each key is present iff its own read and every earlier read succeeded, so keys are set in source order and a failed section keeps the keys it had; the title, url and markdown are the values read; the meta description defaults to ""; the headings are those of levels 1 to 6 in level order; the links are at most 50 and the images at most 20, each the first of the full lists; the section has no error iff every read succeeded, and otherwise the error is the message of the first read that raised, or the IndexError of the links; goal extractions appear iff goals were given and a model exists, never after an error, and are the per-goal answers on the markdown |
| WebsiteScanner.InputOf | microservice/services/website_scanner.py:236-241 | the input type defaults to "text", name and id to ""; a truthy attribute is kept as given; required iff the attribute exists |
| WebsiteScanner.FormOf | microservice/services/website_scanner.py:228-244 | one input entry per input element in order; a truthy action and method are kept as given, otherwise the action is "" and the method "GET" |
| WebsiteScanner.DetectTechnologies | microservice/services/website_scanner.py:400-429 | the detected list, or [] when the script raised; never an error |
| WebsiteScanner.ExtractStructure | microservice/services/website_scanner.py:212-256 | the clickable count and depth are present iff the DOM read succeeded; forms and technologies are present iff there is no error, which is iff the DOM and form reads succeeded, otherwise the error is the first raised message; the depth is that of the element tree; the forms are one entry per form element, in order |
| WebsiteScanner.ExtractAccessibility | microservice/services/website_scanner.py:258-287 | ax_tree_available is whether the snapshot is non-None; the element count is present iff the snapshot is truthy, and is then positive and the node count; images_without_alt, h1_count and elements_with_aria_labels are each present iff their own read and every earlier read succeeded, and are then the counts read; proper_heading_structure iff exactly one h1; no error iff every read succeeded, otherwise the error is the first raised message |
| WebsiteScanner.ExtractSecurity | microservice/services/website_scanner.py:289-319 | is_https iff the page URL starts with "https://"; both mixed-content counts appear together and are the counts read; the four header flags appear iff there is no error, and each is whether that header is present; otherwise the error is the first raised message |
| WebsiteScanner.ExtractPerformance | microservice/services/website_scanner.py:321-357 | timing is present iff its read succeeded and resources iff both reads succeeded, each the value read; no error iff both succeeded, otherwise the error is the first raised message |
| WebsiteScanner.ItemOf | microservice/services/website_scanner.py:374-378 | an item has the element's stripped text and its html cut to 500 characters: the whole html when it is that short, else a 500-character prefix |
| WebsiteScanner.ReadItems | microservice/services/website_scanner.py:373-379 | the items succeed iff every element can be read, then one item per element in order; otherwise the first failing read's message |
| WebsiteScanner.SelectorEntry | microservice/services/website_scanner.py:369-385 | a raised lookup is the selector's error; otherwise the selector has items iff every one of its first 10 elements reads, and then they are those elements' items in order, each html at most 500 characters; else the error is the first failed read's message |
| WebsiteScanner.ExtractCustom | microservice/services/website_scanner.py:359-387 | one entry per distinct selector, each computed from that selector's own elements |
| WebsiteScanner.SelectorIsolated | microservice/services/website_scanner.py:368-385 | a selector's entry depends only on that selector's elements, whatever the other selectors do |
| WebsiteScanner.ScreenshotPath | microservice/services/website_scanner.py:389-398 | "/tmp/screenshot_…png" when capturing worked, "" iff it raised |
| WebsiteScanner.ScanSections | microservice/services/website_scanner.py:73-102 | each of the five sections is present iff the scan type is "full" or its name; custom_extraction is present iff selectors were given and non-empty; each present section is that section's extraction |
| WebsiteScanner.PerformComprehensiveScan | microservice/services/website_scanner.py:30-122 | url and scan_type are echoed; status "completed" iff the session opened and closed without raising, else "failed" with empty data, an error and no screenshot |
| WebsiteScanner.ContentIsolated | microservice/services/website_scanner.py:74-77 | the content section depends only on the page's content reads: any change to the other sections' reads leaves it unchanged |
| WebsiteScanner.SingleSectionScan | microservice/services/website_scanner.py:74-97 | a scan of one named type produces that section and none of the other four |
| WebsiteScanner.UnknownScanTypeIsEmpty | microservice/services/website_scanner.py:74-97 | an unrecognised scan type produces none of the five sections |

## Left out

- `services/message_processor.py` is not part of this model. It provides the polling loop, concurrency limit, acknowledgement order and the processor's own `health_check` and `running` flag, which appear here only as parameters (`ProcessorHealth`, the `processing` flag, the optional queue service).
- `services/browser_agent.py` is a wrapper over the agent and LLM libraries. Its `run_task` returns one string, while `app.py:101` unpacks three values; the model lets the agent either raise or return three values (`RunOutcome`), which covers both outcomes of that unpacking. It defines no `cleanup_temp_files` (Finding 1).
- All SDK and HTTP calls, `run_in_executor`, asyncio scheduling, FastAPI routing, CORS and the lifespan hook are parameters or left out; their only modelled effect is a value or an exception.
- Timestamps, uuids, `mimetypes.guess_type`, `os.path.exists`, `json.loads`, `json.dumps` and `int()` are parameters; their own behaviour is not modelled.
- Logging is left out everywhere; no decision depends on it.
- The scanner's in-browser JavaScript, markdownify, the LLM call and the screenshot capture are parameters that answer a value or an exception.
- The scan's `timeout` argument is unused by the source and is not modelled.
- The webhook and agent timeouts are forwarded to oracles; no deadline is modelled.
- `S3Service.delete_file`, `S3Service.health_check`, `SQSService.health_check`, `get_presigned_url` and `APIClientService.close` are thin one-call wrappers used only by the message processor or not at all; they are left out.
- A Python dict key that is absent and one that holds `None` are both `None` in the model's records; the source never distinguishes them in the modelled rules.
- Lower-casing of metadata keys covers ASCII letters only; `str.lower()` on other scripts is not modelled.
- Gateway.TestSqsMessage: the detail of the re-raised 500 is modelled as the text `str()` gives an HTTPException ("500: Failed to send message to SQS"); the framework's own formatting is not part of this model.
- ScanTrees.DomDepth: recurses without bound. The Python version hits the interpreter's recursion limit on a very deep element tree, and the RecursionError becomes the structure section's `error`; the model has no depth limit, so it gives a depth where the source records that error.
- ScanTrees.CountAx: likewise recurses without bound, where the Python version's RecursionError on a very deep snapshot becomes the accessibility section's `error`.
- Heading and link element reads that raise are collapsed into one outcome per section read, which ends the content section at the same key as the source.

## Findings

| source | as written | input that shows it | evidently intended | confidence | as-written member | corrected member |
|---|---|---|---|---|---|---|
| microservice/app.py:122-124 | the `finally` block calls `agent_service.cleanup_temp_files()`, which `BrowserAgentService` does not define, so it raises AttributeError on every run that built an agent; the outer handler then overwrites the record with failed | an agent that returns normally, with callback "http://h": the record goes completed → failed with the missing-attribute message, and two webhooks are sent, "completed" then "failed" | cleanup completes, and a successful run stays completed with one webhook | high, not executed | Gateway.AsWrittenSuccessEndsFailed | Gateway.CorrectedSuccessCompletes |
| microservice/app.py:248-257 | a raised processor health check stores `str(e)` under `aws_error`; a non-empty string is truthy, so `all(...)` still holds and the status stays "healthy" | a processor whose `health_check` raises Exception("timeout"): the services are {fastapi: True, aws_error: "timeout"} and the status is "healthy" | a failed health check reports "degraded" | medium, not executed | Gateway.RaisedHealthCheckReportedHealthy | Gateway.HealthCheckCorrected |
