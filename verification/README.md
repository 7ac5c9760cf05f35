# ytdlbox, modelled in Dafny

ytdlbox is a small download box. It accepts download requests for a URL over HTTP or over a
websocket, files each request as a task with a fresh ID, and runs the downloader
(`youtube-dl` or a compatible tool) for up to five attempts. Each attempt may egress through a
borrowed proxy or through a rotating source address. The box keeps the task's log and output
file, and answers everyone who asked to be told when the task finishes. After a grace period
it forgets the task.

The repository holds two copies of the box:
- the current server, under `server/`;
- an older copy, under `src/`, which holds the proxy pool's source (`ProxyListener`).

The server builds its own `ProxyListener` when proxy listening is configured; the model gives
it the semantics of the pool under `src/`.

A client library (`RemoteBox`) talks to the server's websocket with numbered requests.

This project models the parts that decide what the box does.

- **Requests and responses (`DataObjects`).** The request and response records shared by
  server and client, with their defaults. The task key built from the URL and its arguments.
- **Proxy pool (`ProxyPool`).** Adding, removing, borrowing and returning proxies. Error
  counting and eviction at the error limit. Restoring the pool from its saved list.
- **Rotator (`Rotator`).** The producer of rotating source addresses. It runs block by block
  over the configured range and starts again when the blocks run out.
- **Command line (`CommandLine`).** The downloader command line of one attempt: the process,
  its default arguments, the caller's options, the egress flags, the output template and the
  URL.
- **Task files (`TaskFiles`).** Log paths, the output template, and finding a task's output
  file. The last line of a task's log.
- **Retry loop (`RetryLoop`).** The server's and the older copy's retry loops. Up to five
  attempts. A process that exits with a code of 0 or less is a success. Failure handlers can
  veto further attempts. When a proxy was used, the log is scanned for a proxy error.
- **Registry (`Registry`).** The two maps the box keeps (task ID to task, URL to task ID), and
  the updates a task makes to them.
- **Lifecycle (`Lifecycle`).** A task's life in the registry, from filing to removal, with the
  statuses it goes through. In the server this is RUNNING, then the final status, then
  SHUTTING_DOWN, then removal. The older copy removes the task directly.
- **Task views and routes (`TaskView`, `Routes`).** The task information view, the HTTP routes
  for information, logs, the output and new downloads, in both copies.
- **Websocket dispatch (`Dispatch`).** How the server answers each websocket request, and the
  answers it sends to listeners when a task completes.
- **Wire format (`WireFormat`).** The choice of serial format from the Accept header.
- **Client (`Client`).** Client nonces, and how a client call waits for its answer in the
  shared stream of responses.
- **Protocol (`Protocol`).** Client and server together: which response a call reports, and
  when.
- **Completion actions (`CompletionActions`).** The rclone upload a request may ask for, its
  configuration, and the command line it runs.

The side of the box that touches the world is modelled as parameters:
- files on disk are a `Files` value (logs by task, the holding directory's files);
- HashMap iteration order is an `order` sequence;
- what the downloader did in each attempt is a sequence of `Attempt` values;
- the fresh task ID is an input;
- the time a task spends in each stage is the order of its stages.

## Model

| member | source | states |
|---|---|---|
| DataObjects.Key | common/src/commonMain/kotlin/dev.brella.ytdlbox/DataObjects.kt:16 | the key starts with the URL, then " (", the arguments joined by ", ", and ")" |
| DataObjects.KeySeparatesArgs | common/src/commonMain/kotlin/dev.brella.ytdlbox/DataObjects.kt:16 | two requests for the same URL with different non-empty, comma-free argument lists have different keys, although deduplication ignores the key |
| DataObjects.Defaults | common/src/commonMain/kotlin/dev.brella.ytdlbox/DataObjects.kt:91-141 | a request has no arguments or completion actions by default; a websocket download does not listen by default; a proxy's error limit is 3 by default; a failure carries no error classification by default |
| Text.Join | common/src/commonMain/kotlin/dev.brella.ytdlbox/DataObjects.kt:16 | the join of no parts is empty; the first part is a prefix of the join; with two or more parts, the separator follows the first part |
| Text.JoinInjective | common/src/commonMain/kotlin/dev.brella.ytdlbox/DataObjects.kt:16 | with comma-free parts, two non-empty lists that join to the same text with ", " are equal |
| ProxyPool.Restore | src/main/kotlin/dev/brella/ytdlbox/ProxyListener.kt:98-101 | the restored pool holds exactly the saved proxies, each with load 0, and no error counts |
| ProxyPool.Add | src/main/kotlin/dev/brella/ytdlbox/ProxyListener.kt:37-41 | a proxy whose address is already present changes nothing; otherwise it joins with load 0; error counts are never touched |
| ProxyPool.FirstWithAddress | src/main/kotlin/dev/brella/ytdlbox/ProxyListener.kt:43 | the first proxy in iteration order that has the address, or none when no proxy has it |
| ProxyPool.Remove | src/main/kotlin/dev/brella/ytdlbox/ProxyListener.kt:42-47 | the removed proxy was in the pool with that address and is the only entry to go; when none has the address the pool is unchanged |
| ProxyPool.RemoveNoneIffAbsent | src/main/kotlin/dev/brella/ytdlbox/ProxyListener.kt:42-47 | removal reports no proxy exactly when no pooled proxy has the address |
| ProxyPool.RemoveTakesTheOwner | src/main/kotlin/dev/brella/ytdlbox/ProxyListener.kt:42-47 | with unique addresses, removing a pooled proxy's address removes that very proxy and reports it |
| ProxyPool.LeastLoaded | src/main/kotlin/dev/brella/ytdlbox/ProxyListener.kt:49-51 | the result is below its limit and no eligible proxy has a smaller load; it is the first such proxy in iteration order, every eligible proxy before it having a greater load; none exactly when every proxy is at or over its limit |
| ProxyPool.Borrow | src/main/kotlin/dev/brella/ytdlbox/ProxyListener.kt:48-55 | a borrowed proxy is below its limit and least loaded among the eligible ones; the pool is left unchanged, because the load is written back as it was |
| ProxyPool.BorrowNoneIffAllBusy | src/main/kotlin/dev/brella/ytdlbox/ProxyListener.kt:48-55 | borrowing finds nothing exactly when every pooled proxy is at or over its limit |
| ProxyPool.Return | src/main/kotlin/dev/brella/ytdlbox/ProxyListener.kt:56-73 | a clean return decrements the load and keeps the error counts; an error that reaches the error limit evicts the proxy and its count; a smaller error count is recorded and the load decremented |
| ProxyPool.UniqueAddressesPreserved | src/main/kotlin/dev/brella/ytdlbox/ProxyListener.kt:36-73 | add, remove, borrow and return each keep the pool's addresses unique |
| ProxyPool.EvictedAtErrorLimit | src/main/kotlin/dev/brella/ytdlbox/ProxyListener.kt:56-67 | a proxy returned with errors stays pooled while fewer than its error limit have been counted, and is gone once the limit is reached |
| ProxyPool.EvictedNeverBorrowed | src/main/kotlin/dev/brella/ytdlbox/ProxyListener.kt:48-67 | a proxy that is no longer pooled is never lent again |
| ProxyPool.BorrowIgnoresCapacity | src/main/kotlin/dev/brella/ytdlbox/ProxyListener.kt:53 | as written, one proxy with limit 2 is lent three times in a row |
| ProxyPool.BorrowCounted | src/main/kotlin/dev/brella/ytdlbox/ProxyListener.kt:48-55 | the corrected borrow: the lent proxy's load goes up by one and nothing else changes; when nothing is lent the pool is unchanged |
| ProxyPool.BorrowCountedWithinLimits | src/main/kotlin/dev/brella/ytdlbox/ProxyListener.kt:50 | the corrected borrow never lends a proxy past its limit |
| ProxyPool.BorrowCountedCapacity | src/main/kotlin/dev/brella/ytdlbox/ProxyListener.kt:50 | with the corrected borrow, one proxy with limit 2 is lent twice and then refused |
| Rotator.Advance | server/src/main/kotlin/dev/brella/ytdlbox/ytdlbox.kt:88-95 | the producer's cursor always stays on an address of a block |
| Rotator.Emit | server/src/main/kotlin/dev/brella/ytdlbox/ytdlbox.kt:88-95 | the producer sends exactly the requested number of addresses |
| Rotator.DrawsFirstPass | server/src/main/kotlin/dev/brella/ytdlbox/ytdlbox.kt:82-95 | until the blocks run out, the addresses handed out are one pass over the blocks, in order |
| Rotator.DrawsRestart | server/src/main/kotlin/dev/brella/ytdlbox/ytdlbox.kt:88-89 | after a whole pass the producer starts again at the first block, so later draws repeat the pass from its start |
| Rotator.PassAt | server/src/main/kotlin/dev/brella/ytdlbox/ytdlbox.kt:91-94 | within a pass, the j-th address of block b follows the addresses of all earlier blocks |
| Rotator.EmitFrom | server/src/main/kotlin/dev/brella/ytdlbox/ytdlbox.kt:88-95 | from any cursor, the next sends up to the end of the pass are that stretch of the pass, and the cursor then sits right after it or back at the start |
| CommandLine.ChooseEgress | server/src/main/kotlin/dev/brella/ytdlbox/OngoingProcess.kt:54-67 | a borrowed proxy always wins; a drawn source address is used only without a proxy; otherwise the egress is direct |
| CommandLine.Build | server/src/main/kotlin/dev/brella/ytdlbox/OngoingProcess.kt:49-73 | the command line starts with the process and ends with "-o", the template and the URL, one entry per piece in between |
| CommandLine.BuildLayout | server/src/main/kotlin/dev/brella/ytdlbox/OngoingProcess.kt:49-73 | between the process and "-o" come the default arguments, the caller's options and the egress flags, each at its own position |
| CommandLine.DissectBuild | server/src/main/kotlin/dev/brella/ytdlbox/OngoingProcess.kt:49-73 | every piece of a built command line can be read back: process, default arguments, options, the kind of egress with its address and address family, template and URL |
| CommandLine.NeverForcesIpv4 | server/src/main/kotlin/dev/brella/ytdlbox/OngoingProcess.kt:62-63 | an IPv4 source address gets no family flag, and "--force-ipv4" never appears in a flag position, only as the value of "--proxy" or "--source-address" |
| TaskFiles.LogPathRoundTrip | server/src/main/kotlin/dev/brella/ytdlbox/ytdlbox.kt:117-118 | a task's log path gives back the task ID |
| TaskFiles.LastIndexOf | server/src/main/kotlin/dev/brella/ytdlbox/ytdlbox.kt:123-125 | the position of the last occurrence of the character, with none after it |
| TaskFiles.OutputFor | server/src/main/kotlin/dev/brella/ytdlbox/ytdlbox.kt:123-125 | the output is the first listed holding file whose name without extension is the task ID (no file before it names the task); none exactly when no such file exists |
| TaskFiles.OutputIsFirstMatch | server/src/main/kotlin/dev/brella/ytdlbox/ytdlbox.kt:123-125 | a listed file naming the task, with no earlier file naming it, is the output found |
| TaskFiles.TemplateOutputFound | server/src/main/kotlin/dev/brella/ytdlbox/ytdlbox.kt:120-125 | a file written through a task's output template, with any dot-free extension, makes an output be found, and it is that file when no earlier listed file names the task |
| TaskFiles.LogTail | server/src/main/kotlin/dev/brella/ytdlbox/ytdlbox.kt:262-264 | the tail exists exactly when the log exists and has a line, and it is the last line |
| TaskFiles.LogTailFollowsAppend | server/src/main/kotlin/dev/brella/ytdlbox/ytdlbox.kt:262-264 | the line last written to a task's log is its tail; lines written to other tasks' logs leave it unchanged |
| RetryLoop.ScanLines | server/src/main/kotlin/dev/brella/ytdlbox/OngoingProcess.kt:102-111 | the scan reports an error exactly when some line mentions both "ERROR" and "forcibly closed by the remote host", ignoring case |
| RetryLoop.ProxyErrorIn | server/src/main/kotlin/dev/brella/ytdlbox/OngoingProcess.kt:99-112 | a proxy error is reported exactly when the log exists and some line is a proxy error line |
| RetryLoop.FoldHandlers | server/src/main/kotlin/dev/brella/ytdlbox/OngoingProcess.kt:94 | the fold allows a retry exactly when every handler allows it; handlers run in order, and the first refusal stops the fold |
| RetryLoop.Step | server/src/main/kotlin/dev/brella/ytdlbox/OngoingProcess.kt:45-116 | an attempt ends the loop exactly when it succeeds or a handler vetoes it; a borrowed proxy is returned in every case |
| RetryLoop.FirstStop | server/src/main/kotlin/dev/brella/ytdlbox/OngoingProcess.kt:93-94 | the index of the first attempt that ends the loop; every attempt before it lets the loop go on |
| RetryLoop.RunFromAttempts | server/src/main/kotlin/dev/brella/ytdlbox/OngoingProcess.kt:45 | the loop runs up to and including the first stopping attempt, or all attempts |
| RetryLoop.RunFromSuccess | server/src/main/kotlin/dev/brella/ytdlbox/OngoingProcess.kt:92-93 | the loop succeeds exactly when one of the attempts it ran exited with code 0 or less |
| RetryLoop.RunFromReturns | server/src/main/kotlin/dev/brella/ytdlbox/OngoingProcess.kt:97-115 | every proxy borrowed by an attempt that ran is returned once, in order, with the error flag from that attempt's log |
| RetryLoop.RunFromCommandLine | server/src/main/kotlin/dev/brella/ytdlbox/OngoingProcess.kt:75 | the task's command line is the one built for the last attempt that ran |
| RetryLoop.RunFromStatuses | server/src/main/kotlin/dev/brella/ytdlbox/OngoingProcess.kt:81 | the loop only ever writes RUNNING |
| RetryLoop.ExpectedReturnsAppend | server/src/main/kotlin/dev/brella/ytdlbox/OngoingProcess.kt:97-115 | the returns of two runs of attempts are the returns of each run, one after the other |
| RetryLoop.RunBounded | server/src/main/kotlin/dev/brella/ytdlbox/OngoingProcess.kt:45-117 | a server loop runs between 1 and 5 attempts, up to and including the first that leaves it; the proxy returns are those of the attempts it ran, and the command line left behind is the last one run |
| RetryLoop.RunSucceeds | server/src/main/kotlin/dev/brella/ytdlbox/OngoingProcess.kt:45-117 | a server loop succeeds exactly when some attempt exits with a code at most 0 and no earlier attempt left the loop |
| RetryLoop.RetryBudgetExhausted | server/src/main/kotlin/dev/brella/ytdlbox/OngoingProcess.kt:45 | when every attempt fails and no handler vetoes, all five attempts run and the task fails |
| RetryLoop.VetoEndsAfterFirstAttempt | server/src/main/kotlin/dev/brella/ytdlbox/OngoingProcess.kt:94 | a failed first attempt that a handler vetoes ends the loop after one attempt, as a failure |
| RetryLoop.LegacyStep | src/main/kotlin/dev/brella/ytdlbox/ytdlbox.kt:164-230 | in the older copy an attempt ends the loop when it succeeds, when its single failure handler says no, or when it throws; a borrowed proxy is still returned; a throw in the source-address draw keeps the previous command line |
| RetryLoop.LegacyRunFromCommandLine | src/main/kotlin/dev/brella/ytdlbox/ytdlbox.kt:175-191 | the older loop leaves its last attempt's command line, or, when that attempt threw in the source-address draw, the one before it |
| RetryLoop.LegacyFirstStop | src/main/kotlin/dev/brella/ytdlbox/ytdlbox.kt:209-210 | the index of the first attempt that ends the older loop; every attempt before it lets the loop go on |
| RetryLoop.LegacyRunFromAttempts | src/main/kotlin/dev/brella/ytdlbox/ytdlbox.kt:164 | the older loop runs up to and including the first stopping attempt |
| RetryLoop.LegacyRunFromOutcome | src/main/kotlin/dev/brella/ytdlbox/ytdlbox.kt:166-211 | the older loop is aborted exactly when the attempt that stopped it threw, and succeeds exactly when that attempt exited with code 0 or less |
| RetryLoop.LegacyRunFromReturns | src/main/kotlin/dev/brella/ytdlbox/ytdlbox.kt:211-230 | every proxy borrowed by an attempt of the older loop is returned, even from an attempt that threw |
| RetryLoop.LegacyRunFromStatuses | src/main/kotlin/dev/brella/ytdlbox/ytdlbox.kt:197 | the older loop only ever writes RUNNING |
| RetryLoop.LegacyRunBounded | src/main/kotlin/dev/brella/ytdlbox/ytdlbox.kt:164-231 | the older loop runs between 1 and 5 attempts; with no handler, five failing exits all run |
| Registry.ByUrlFinds | server/src/main/kotlin/dev/brella/ytdlbox/ytdlbox.kt:352 | in a consistent registry, the lookup by URL finds a task exactly when some filed task has that URL, and returns it |
| Registry.Register | server/src/main/kotlin/dev/brella/ytdlbox/OngoingProcess.kt:143-146 | the new task is found by its URL; one ID is added and every other task is unchanged |
| Registry.Progress | server/src/main/kotlin/dev/brella/ytdlbox/OngoingProcess.kt:75-81 | only the task's command line and status change |
| Registry.SetStatus | server/src/main/kotlin/dev/brella/ytdlbox/OngoingProcess.kt:121 | only the task's status changes |
| Registry.AddListener | server/src/main/kotlin/dev/brella/ytdlbox/OngoingProcess.kt:155-156 | the listener is appended to the task's completion callbacks and nothing else changes |
| Registry.FireHooks | server/src/main/kotlin/dev/brella/ytdlbox/OngoingProcess.kt:124-126 | success hooks run only on success with an existing output; then every completion hook runs, in order |
| Registry.FinalStatus | server/src/main/kotlin/dev/brella/ytdlbox/OngoingProcess.kt:121 | the final status is a completed one, and it is COMPLETE_SUCCESS exactly on success |
| Registry.Complete | server/src/main/kotlin/dev/brella/ytdlbox/OngoingProcess.kt:121-126 | writes the final status and fires the hooks of the updated task; a missing task fires nothing |
| Registry.Expire | server/src/main/kotlin/dev/brella/ytdlbox/OngoingProcess.kt:134-135 | the task and its URL are gone and every other task and URL is unchanged |
| Registry.RegisterValid | server/src/main/kotlin/dev/brella/ytdlbox/OngoingProcess.kt:143-146 | filing a task whose URL is free keeps both maps consistent |
| Registry.ProgressValid | server/src/main/kotlin/dev/brella/ytdlbox/OngoingProcess.kt:75-81 | progress keeps the registry consistent |
| Registry.SetStatusValid | server/src/main/kotlin/dev/brella/ytdlbox/OngoingProcess.kt:121 | a status change keeps the registry consistent |
| Registry.AddListenerValid | server/src/main/kotlin/dev/brella/ytdlbox/OngoingProcess.kt:155-156 | adding a listener keeps the registry consistent |
| Registry.ExpireValid | server/src/main/kotlin/dev/brella/ytdlbox/OngoingProcess.kt:134-135 | removal keeps the registry consistent |
| Registry.ExtendsStep | server/src/main/kotlin/dev/brella/ytdlbox/OngoingProcess.kt:75-130 | updates confined to one task keep the rest of the registry as it was before the task was filed |
| Registry.ExpireRestores | server/src/main/kotlin/dev/brella/ytdlbox/OngoingProcess.kt:134-135 | removing a task that only extended a registry gives back that registry |
| Registry.RegisterExpire | server/src/main/kotlin/dev/brella/ytdlbox/OngoingProcess.kt:134-146 | filing and then removing a task gives back the registry |
| Lifecycle.TransitionForward | common/src/commonMain/kotlin/dev.brella.ytdlbox/DataObjects.kt:6-12 | statuses only move forward; only RUNNING repeats; a completed task can only move to SHUTTING_DOWN, and SHUTTING_DOWN is final |
| Lifecycle.WalkSorted | server/src/main/kotlin/dev/brella/ytdlbox/OngoingProcess.kt:81-130 | along any walk of statuses, a later status never ranks below an earlier one |
| Lifecycle.RunningWalk | server/src/main/kotlin/dev/brella/ytdlbox/OngoingProcess.kt:81 | INITIALISING, then any number of RUNNING, then a valid tail, is a walk |
| Lifecycle.ServerTraceWalks | server/src/main/kotlin/dev/brella/ytdlbox/OngoingProcess.kt:81-130 | the statuses a server task goes through form a walk that ends in SHUTTING_DOWN |
| Lifecycle.LegacyTraceWalks | src/main/kotlin/dev/brella/ytdlbox/ytdlbox.kt:157-233 | a task of the older copy never goes through SHUTTING_DOWN, and ends complete exactly when its loop was not aborted |
| Lifecycle.AddListeners | server/src/main/kotlin/dev/brella/ytdlbox/WebsocketControl.kt:81-100 | listeners arriving while a task runs are appended to its callbacks in arrival order, and nothing else changes |
| Lifecycle.ServerTaskValid | server/src/main/kotlin/dev/brella/ytdlbox/OngoingProcess.kt:33-146 | the registry stays consistent at every stage of a server task |
| Lifecycle.ServerTaskStages | server/src/main/kotlin/dev/brella/ytdlbox/OngoingProcess.kt:75-130 | a running task is found by its URL with the last attempt's command line, then holds its final status, then SHUTTING_DOWN |
| Lifecycle.ServerTaskExtends | server/src/main/kotlin/dev/brella/ytdlbox/OngoingProcess.kt:75-130 | until its removal a server task changes nothing in the registry but its own entry and URL |
| Lifecycle.ServerTaskRemoved | server/src/main/kotlin/dev/brella/ytdlbox/OngoingProcess.kt:128-135 | the removal of a server task gives back the registry it started from |
| Lifecycle.ServerTaskAnswersListeners | server/src/main/kotlin/dev/brella/ytdlbox/OngoingProcess.kt:124-126 | the end of the loop answers every appended listener exactly once, in arrival order, and runs nothing else |
| Lifecycle.ServerTaskLife | server/src/main/kotlin/dev/brella/ytdlbox/OngoingProcess.kt:33-146 | around its own retry loop: 1 to 5 attempts, final status by success, the last attempt's command line, and the registry restored at the end |
| Lifecycle.WithCallbacks | src/main/kotlin/dev/brella/ytdlbox/ytdlbox.kt:236-237 | writing the older copy's single `onSuccess` and `onComplete` callbacks changes only that task's callbacks |
| Lifecycle.LegacyTaskCompleted | src/main/kotlin/dev/brella/ytdlbox/ytdlbox.kt:233-240 | during the grace period a task of the older copy holds its final status and command line and is still found by its URL and its ID |
| Lifecycle.LegacyTaskFiresCallbacks | src/main/kotlin/dev/brella/ytdlbox/ytdlbox.kt:232-237 | the end of the older loop runs `onSuccess` only when the loop succeeded and the output exists, then `onComplete`, each only when set; an aborted loop runs neither |
| Lifecycle.LegacyTaskReturns | src/main/kotlin/dev/brella/ytdlbox/ytdlbox.kt:233-254 | in the older copy a loop that ends normally leads back to the registry the task started from |
| Lifecycle.LegacyTaskStranded | src/main/kotlin/dev/brella/ytdlbox/ytdlbox.kt:164-243 | in the older copy a loop aborted by an exception leaves the task filed for good, never complete, and still found by its URL |
| Lifecycle.LegacyTaskLife | src/main/kotlin/dev/brella/ytdlbox/ytdlbox.kt:155-254 | around the older retry loop: a normal end restores the registry, and an abort strands the task |
| TaskView.Describe | server/src/main/kotlin/dev/brella/ytdlbox/ytdlbox.kt:266-321 | the view is Running, Successful or Generic according to the status; it carries the task's fields, the log tail and the logs link; only a successful task links its download; process details or the probe error appear only for a running task |
| TaskView.ParsePath | server/src/main/kotlin/dev/brella/ytdlbox/ytdlbox.kt:254-348 | a parsed path names a non-empty task ID without a slash |
| TaskView.ParseJoined | server/src/main/kotlin/dev/brella/ytdlbox/ytdlbox.kt:254-348 | "/" + ID + a known suffix is routed to that task's route |
| TaskView.LinksRoute | server/src/main/kotlin/dev/brella/ytdlbox/ytdlbox.kt:293-309 | the logs and download links in a view lead back to the logs and download routes of the same task |
| Routes.Info | server/src/main/kotlin/dev/brella/ytdlbox/ytdlbox.kt:255-323 | not found exactly when no task has the ID, with the "No task with ID" error; otherwise the task's view |
| Routes.Logs | server/src/main/kotlin/dev/brella/ytdlbox/ytdlbox.kt:324-337 | the log lines exactly when the log exists; otherwise the "No logs found for" error |
| Routes.Download | server/src/main/kotlin/dev/brella/ytdlbox/ytdlbox.kt:338-348 | the task's output file exactly when one exists; otherwise the "No download found for" error |
| Routes.PostDownload | server/src/main/kotlin/dev/brella/ytdlbox/ytdlbox.kt:351-358 | a URL already filed answers OK with that task and changes nothing; a new URL is filed under the fresh ID and answers Created |
| Routes.PostDownloadValid | server/src/main/kotlin/dev/brella/ytdlbox/ytdlbox.kt:351-358 | posting a download keeps the registry consistent |
| Routes.PostDownloadDedup | server/src/main/kotlin/dev/brella/ytdlbox/ytdlbox.kt:352-354 | a second post for the same URL, whatever its arguments, gets the first task back, with created false, and files nothing |
| Routes.LegacyInfoRoute | src/main/kotlin/dev/brella/ytdlbox/ytdlbox.kt:274-319 | the older info route: not found exactly when no task has the ID; otherwise the task's fields |
| Routes.LegacyLogs | src/main/kotlin/dev/brella/ytdlbox/ytdlbox.kt:320-339 | the older logs route answers exactly when the log exists: JSON lines when asked for JSON, otherwise the lines as plain text |
| Routes.LegacyDownload | src/main/kotlin/dev/brella/ytdlbox/ytdlbox.kt:340-353 | the older download route sends the task's output file (the first holding file whose name without extension is the ID) exactly when one exists, otherwise its error |
| Routes.LegacyInfoAgrees | src/main/kotlin/dev/brella/ytdlbox/ytdlbox.kt:274-319 | on a consistent registry the older info route and the server's are found together and agree on identity, arguments, command line, status, logs link and last log line; the older one has a download link exactly when the server's description is Successful and a process object exactly when it is Running |
| Routes.LegacyLogsAgrees | src/main/kotlin/dev/brella/ytdlbox/ytdlbox.kt:320-339 | the older logs route answers exactly when the server's finds the log, with the same lines as JSON, or those lines joined by newlines as text |
| Routes.LegacyDownloadAgrees | src/main/kotlin/dev/brella/ytdlbox/ytdlbox.kt:340-353 | both download routes send the same file, and fail together with the same message |
| Routes.LegacyPostDownload | src/main/kotlin/dev/brella/ytdlbox/ytdlbox.kt:356-373 | the older post answers OK exactly when the URL is filed; otherwise it files the task under the fresh ID |
| Routes.PostDownloadVersionsAgree | src/main/kotlin/dev/brella/ytdlbox/ytdlbox.kt:356-373 | on a consistent registry both copies make the same dedup decision and leave the same registry; they name the same task ID and URL and give identical Created answers; for a filed URL the server reports the task's arguments and the older copy the request's |
| Dispatch.OnCompletion | server/src/main/kotlin/dev/brella/ytdlbox/WebsocketControl.kt:212-256 | a completed listener gets a success exactly when the task succeeded; output bytes only when data was asked for; it always gets the log lines; a failure has no error classification |
| Dispatch.ReceiveDownload | server/src/main/kotlin/dev/brella/ytdlbox/WebsocketControl.kt:81-100 | a download request is acknowledged first, with at most one further response, every response echoing the nonce; the pool, files and configuration are untouched |
| Dispatch.Receive | server/src/main/kotlin/dev/brella/ytdlbox/WebsocketControl.kt:65-208 | every request gets at least one response echoing its nonce; only downloads touch the registry, and only proxy requests touch the pool |
| Dispatch.Answers | server/src/main/kotlin/dev/brella/ytdlbox/OngoingProcess.kt:124-126 | every completion hook sends one answer, so there are never more answers than hooks |
| Dispatch.HooksOf | server/src/main/kotlin/dev/brella/ytdlbox/OngoingProcess.kt:126 | listeners fire one completion hook each, in order |
| Dispatch.AnswersListeners | server/src/main/kotlin/dev/brella/ytdlbox/WebsocketControl.kt:212-256 | each listener is answered on its own session with its own nonce, in order |
| Dispatch.DownloadAcknowledged | server/src/main/kotlin/dev/brella/ytdlbox/WebsocketControl.kt:81-100 | the acknowledgement names the task filed under the URL; created is true exactly when the URL was new |
| Dispatch.DownloadListener | server/src/main/kotlin/dev/brella/ytdlbox/WebsocketControl.kt:85-99 | a listening request for an unfinished task is added as a listener; one for a finished task is answered at once; a request that does not listen adds nothing |
| Dispatch.ReceiveValid | server/src/main/kotlin/dev/brella/ytdlbox/WebsocketControl.kt:65-208 | every request keeps the registry consistent |
| Dispatch.NoProxyListenerIffNoPool | server/src/main/kotlin/dev/brella/ytdlbox/WebsocketControl.kt:69-79 | a proxy request is answered NoProxyListener exactly when the box has no proxy pool |
| Dispatch.ReceiveKeepsAddressesUnique | server/src/main/kotlin/dev/brella/ytdlbox/WebsocketControl.kt:69-79 | every request keeps the pool's addresses unique |
| Dispatch.TaskInfoAgreesWithRoute | server/src/main/kotlin/dev/brella/ytdlbox/WebsocketControl.kt:116-185 | the websocket task information is what the HTTP info route shows, and NoTaskWithID where the route says not found |
| Dispatch.TaskDownloadAgreesWithRoute | server/src/main/kotlin/dev/brella/ytdlbox/WebsocketControl.kt:198-206 | the websocket download is the HTTP route's output file, and NoDownloadForTaskAvailable where the route says not found |
| Dispatch.TaskLogsAgreesWithRoute | server/src/main/kotlin/dev/brella/ytdlbox/WebsocketControl.kt:187-196 | the websocket logs are the HTTP route's lines, and empty where the route says not found |
| Dispatch.DownloadAgreesWithPost | server/src/main/kotlin/dev/brella/ytdlbox/WebsocketControl.kt:81-100 | a websocket download that does not listen files the same task and gives the same answer as the HTTP post |
| Dispatch.ServerInfoReports | server/src/main/kotlin/dev/brella/ytdlbox/WebsocketControl.kt:102-114 | the server information reports a proxy listener exactly when the box has a proxy pool |
| WireFormat.Pick | server/src/main/kotlin/dev/brella/ytdlbox/ytdlbox.kt:377-392 | an Accept entry picks JSON before CBOR before ProtoBuf, and none exactly when no format matches it |
| WireFormat.NegotiateChoice | server/src/main/kotlin/dev/brella/ytdlbox/ytdlbox.kt:375-396 | the format is the one picked by the first matching entry, or JSON when no entry matches |
| WireFormat.PickOwnType | server/src/main/kotlin/dev/brella/ytdlbox/ytdlbox.kt:377-392 | each format's own media type picks that format |
| WireFormat.NegotiateOwnType | server/src/main/kotlin/dev/brella/ytdlbox/ytdlbox.kt:375-396 | a client whose first entry is its format's media type gets that format |
| WireFormat.WildcardMeansJson | server/src/main/kotlin/dev/brella/ytdlbox/ytdlbox.kt:377-392 | a leading "*/*" or "application/*" entry means JSON |
| WireFormat.NoMatchMeansJson | server/src/main/kotlin/dev/brella/ytdlbox/ytdlbox.kt:375-396 | an Accept list that no format matches, the empty one included, falls back to JSON |
| Client.Open | client/src/jvmMain/kotlin/dev/brella/ytdlbox/client/RemoteBox.kt:65-66 | a new connection's nonce base has a zero low half, and its counter starts at 0 |
| Client.Inc | client/src/jvmMain/kotlin/dev/brella/ytdlbox/client/RemoteBox.kt:69 | the Long counter's increment, on its 64 bits read unsigned: one more, except that all ones (`-1L`) becomes 0; `Long.MAX_VALUE` going to `Long.MIN_VALUE` is the ordinary step from 2^63 - 1 to 2^63 |
| Client.NextNonce | client/src/jvmMain/kotlin/dev/brella/ytdlbox/client/RemoteBox.kt:68-69 | taking a nonce returns the base combined with the current counter, keeps the base and increments the counter |
| Client.Nonces | client/src/jvmMain/kotlin/dev/brella/ytdlbox/client/RemoteBox.kt:68-69 | n calls take n nonces |
| Client.NonceAt | client/src/jvmMain/kotlin/dev/brella/ytdlbox/client/RemoteBox.kt:68-69 | the k-th nonce taken is the one the connection hands out after k earlier calls |
| Client.SkipCounter | client/src/jvmMain/kotlin/dev/brella/ytdlbox/client/RemoteBox.kt:69 | until the counter wraps, k calls move it on by exactly k |
| Client.NonceForInjective | client/src/jvmMain/kotlin/dev/brella/ytdlbox/client/RemoteBox.kt:65-69 | under a base with a zero low half, different counters below 2^32 give different nonces |
| Client.NoncesDistinct | client/src/jvmMain/kotlin/dev/brella/ytdlbox/client/RemoteBox.kt:65-69 | the first 2^32 nonces of a connection are pairwise distinct |
| Client.FirstWhere | client/src/jvmMain/kotlin/dev/brella/ytdlbox/client/RemoteBox.kt:76 | the position of the first response that satisfies the condition; none before it does |
| Client.SendAndWait | client/src/jvmMain/kotlin/dev/brella/ytdlbox/client/RemoteBox.kt:74-77 | the awaited response has the request's nonce and the expected type, and exists exactly when the stream holds one |
| Client.SendAndWaitWithError | client/src/jvmMain/kotlin/dev/brella/ytdlbox/client/RemoteBox.kt:79-89 | at most one of the two results is present, each with the request's nonce and its own type; one is present exactly when the stream holds a response of either type |
| Client.OthersIgnored | client/src/jvmMain/kotlin/dev/brella/ytdlbox/client/RemoteBox.kt:85-88 | responses to other nonces, or of other types, before the answer do not change what the call reports |
| Client.SendAndWaitSkips | client/src/jvmMain/kotlin/dev/brella/ytdlbox/client/RemoteBox.kt:74-77 | a single-type wait reports the first response with the nonce and type, whatever came before |
| Client.RequestFor | client/src/jvmMain/kotlin/dev/brella/ytdlbox/client/RemoteBox.kt:91-158 | each client call sends its own request with the given nonce: the three download calls differ only in their listen condition; the proxy call carries its address and limits |
| Client.Issue | client/src/jvmMain/kotlin/dev/brella/ytdlbox/client/RemoteBox.kt:91-158 | issuing a call uses the connection's next nonce and advances the counter |
| Client.Outcome | client/src/jvmMain/kotlin/dev/brella/ytdlbox/client/RemoteBox.kt:91-158 | what a call reports has the call's nonce and is of a type the call waits for |
| Client.OutcomeIsFirstAccepted | client/src/jvmMain/kotlin/dev/brella/ytdlbox/client/RemoteBox.kt:74-89 | a call reports the first response with its nonce and of a type it waits for, whatever came before |
| Client.IssueFresh | client/src/jvmMain/kotlin/dev/brella/ytdlbox/client/RemoteBox.kt:65-69 | two calls in a row on a new connection send different nonces |
| Protocol.CallAnswered | server/src/main/kotlin/dev/brella/ytdlbox/WebsocketControl.kt:65-208 | every call other than a listening download reports the server's first response, whatever unrelated responses came before |
| Protocol.CompletedTaskAnsweredAtOnce | server/src/main/kotlin/dev/brella/ytdlbox/WebsocketControl.kt:85-93 | a listening download for a finished task gets two responses and reports the second, a success exactly when the task succeeded |
| Protocol.NewTaskFiled | server/src/main/kotlin/dev/brella/ytdlbox/WebsocketControl.kt:94-99 | a listening download for a new URL is acknowledged with the fresh ID, and the new task has the caller as its only listener |
| Protocol.ListenersAnsweredAtEnd | server/src/main/kotlin/dev/brella/ytdlbox/OngoingProcess.kt:121-126 | at the end of the loop each listener is answered, in order, on its session with its nonce: a success exactly when the loop succeeded, with no output unless data was asked for |
| Protocol.NewTaskAnsweredOnCompletion | server/src/main/kotlin/dev/brella/ytdlbox/WebsocketControl.kt:81-100 | the caller of a listening download for a new URL is answered first when the task completes, and its call reports that answer |
| Protocol.ReportsAnswerAfterAck | client/src/jvmMain/kotlin/dev/brella/ytdlbox/client/RemoteBox.kt:91-115 | after an acknowledgement, a completion answer is what a listening download reports |
| Protocol.IncompleteTaskListened | server/src/main/kotlin/dev/brella/ytdlbox/WebsocketControl.kt:85-99 | a listening download for an unfinished task gets only the acknowledgement now, so the call still waits, and the caller is added as a listener |
| Protocol.ShutdownListenerStranded | server/src/main/kotlin/dev/brella/ytdlbox/OngoingProcess.kt:124-132 | a listening download during SHUTTING_DOWN is acknowledged and added as a listener, but its call gets no answer |
| Protocol.ShutdownTask | server/src/main/kotlin/dev/brella/ytdlbox/OngoingProcess.kt:130 | during SHUTTING_DOWN the task is still found by its URL, with its ID, URL and arguments |
| Protocol.ShutdownListenerDropped | server/src/main/kotlin/dev/brella/ytdlbox/OngoingProcess.kt:132-135 | a listener added during SHUTTING_DOWN disappears with its task: the removal gives back the registry before the task |
| CompletionActions.BuildRClone | server/src/main/kotlin/dev/brella/ytdlbox/CompletionActionType.kt:15-33 | without the section there is no configuration; with it, the configured executable or the OS default ("rclone.exe" when the OS name mentions "win"), and the endpoint and base path as configured |
| CompletionActions.Invoke | server/src/main/kotlin/dev/brella/ytdlbox/CompletionActionType.kt:8 | the configuration is offered exactly when an endpoint is configured |
| CompletionActions.ParseRequests | server/src/main/kotlin/dev/brella/ytdlbox/CompletionAction.kt:42-49 | one upload action per request, with its path, in order |
| CompletionActions.DestinationRoundTrip | server/src/main/kotlin/dev/brella/ytdlbox/CompletionAction.kt:16-31 | rclone reads a destination back as the endpoint and then the base path and path |
| CompletionActions.OnCompletion | server/src/main/kotlin/dev/brella/ytdlbox/CompletionAction.kt:9-36 | a command runs exactly when configuration, executable, endpoint and output are all present: rclone copyto from the output to a destination that ends with the requested path |
| CompletionActions.UploadRunsIffConfigured | server/src/main/kotlin/dev/brella/ytdlbox/CompletionAction.kt:9-36 | from the configuration section to the command: an upload runs exactly when the section and its endpoint are set and there is an output, with the configured or default executable |

## Left out

- Coroutines, channels and actors are not modelled. Each operation is one atomic step, and
  interleavings are sequences of steps. The replay-0 `shareIn` of the client's incoming flow
  can miss a response sent before the call subscribes; the model assumes the call sees every
  response.
- Process spawning and waiting are not modelled. Each attempt's outcome is an input: an exit
  code with handler verdicts, or an exception.
- The filesystem is not modelled. Logs and holding files are a `Files` value, and the deletion
  of the log and output in the `finally` blocks is not modelled.
- Timing is not modelled. The 120 and 60 second delays are the order of a task's stages.
- The proxy pool's save job (ProxyListener.kt:76) is not modelled; it only writes the pool to
  disk.
- The Ktor engine itself is not modelled: HTTP method matching, percent-decoding of the path
  and Ktor's own trailing-slash handling. The `/{task_id}` route table is modelled by
  `TaskView.SubRoute` and `TaskView.ParsePath` on the raw path. They read an empty sub-path
  and "/" as the information route, and they do not accept a path with further segments after
  a known sub-path.
- Authentication (argon2) and the parsing and sorting of the Accept header are
  not modelled. Accept entries are given already sorted, and media-type parameters are not
  modelled.
- The IP address library is not modelled. Source addresses are values with a canonical text
  and an IPv6 flag, and the rotator's blocks are given as sequences of addresses, each block
  non-empty.
- Serialisation codecs and the Base64 serialiser are not modelled; responses are values.
- `ContentType.defaultForFile` is not modelled; the MIME type is a field of a holding file.
- The nonce seed (a random long times 31 plus the connection's hash) is an input `seed`.
- Task ID generation is an input `freshId`.
- ProxyPool.Return: loads and error counts are unbounded integers. The source's 32-bit `Int`
  wrap-around is not modelled. Borrowing writes the load back unchanged
  (ProxyListener.kt:53), so the only load arithmetic is the decrement on return
  (ProxyListener.kt:65,69). A wrap would need over two billion returns of one pooled proxy;
  its load would then become `Int.MAX_VALUE` and the proxy would never be lent again.
- Text.ContainsIgnoreCase: case folding covers ASCII letters only. The source folds all of
  Unicode.
- `buildFeatureSet` is not part of this model. The server's feature set is a configuration
  input, except for the proxy-listener flag, which is modelled.
- In the server the websocket download handler calls `beginDownloadFor` with four arguments,
  but the function takes three. Completion actions are therefore never attached to a task,
  and the model files downloads without them. `CompletionActions` models the action on its
  own.
- Exceptions thrown by hooks are not modelled.
- The older copy's websocket handler is not modelled. It is a draft that the server's handler
  replaces. It is the only code that sets the older copy's single `onSuccess` and
  `onComplete` callbacks, so `Lifecycle.LegacyTask` takes them as an input.
- RetryLoop.Step: an attempt that throws is modelled as having written its command line. In
  the server an exception from the source-address draw (OngoingProcess.kt:58) comes before
  that write (OngoingProcess.kt:75), and the previous attempt's command line is kept; the
  server's loop does not distinguish that case. The older loop does: its `ThrowPoint` says
  where an attempt threw, and `RetryLoop.LegacyStep` keeps the previous command line for a
  throw in the draw.
- The server's own `ProxyListener` class is not part of this model. `Dispatch` gives the
  server's pool the semantics of `src/main/kotlin/dev/brella/ytdlbox/ProxyListener.kt`.
- The path separator is "/". The log file name uses the platform's `File` join, which is not
  modelled.
- The default `ytdlProcess` depends on the operating system (server ytdlbox.kt:51-53). It is
  a configuration input.
- The HTTP `/proxy/add` and `/proxy/delete` routes of both copies are not modelled
  separately. They call the same pool operations as the websocket's proxy requests, which
  are modelled as `ProxyPool.Add` and `ProxyPool.Remove`.

Where the code and the repository's own description differ, the model follows the code:
- An existing task is looked up by URL alone, not by the request's key of URL and arguments.
- A task's final status depends only on whether some attempt exited with code 0 or less.
  Errors are never classified (`YtdlError`), and a failure's `error` field is always empty.
- The server's logs route always answers with JSON lines. Its choice of format is commented
  out.
- A listening download call that arrives while its task is SHUTTING_DOWN is acknowledged and
  appended as a listener, but the task's callbacks have already run, so the call is never
  answered (`Protocol.ShutdownListenerStranded`); the listener disappears with the task
  (`Protocol.ShutdownListenerDropped`).

## Findings

| source | as written | input that shows it | evidently intended | confidence | as-written member | corrected member |
|---|---|---|---|---|---|---|
| src/main/kotlin/dev/brella/ytdlbox/ProxyListener.kt:53 | borrowing writes the chosen proxy's load back unchanged, so the limit check never rises | one proxy with limit 2 and load 0, borrowed three times: all three borrows return it | a borrow raises the load by one, so a proxy is never lent beyond its limit | high (not executed) | ProxyPool.BorrowIgnoresCapacity | ProxyPool.BorrowCountedCapacity |
