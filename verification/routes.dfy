/**
 The HTTP routes: a task's info, logs and download under `/{task_id}`, and `POST /download`
 with its dedup by URL, in the server's version and in the older one. Authentication and
 content negotiation happen before these and are not part of this model.
 */
module Routes {
  import opened Wrappers
  import opened DataObjects
  import opened Registry
  import opened TaskFiles
  import opened TaskView
  import Text

  /** An HTTP answer: 200 with a body, 201 with a body, or 404 with an error body. */
  datatype Reply<T, E> = Ok(body: T) | Created(body: T) | NotFound(error: E)

  // ---------------------------------------------------------------------------------------
  // Server

  /** `GET /{task_id}` and `/{task_id}/info`. */
  function Info(reg: Registry, files: Files, id: TaskId, probe: Probe): (r: Reply<TaskInfo, WebError>)
    ensures !r.Created?
    ensures r.NotFound? <==> id !in reg.tasks
    ensures r.NotFound? ==> r.error == WebError(id, "No task with ID " + id)
    ensures r.Ok? ==> r.body == Describe(reg.tasks[id], LogTail(files, id), probe)
  {
    if id !in reg.tasks then NotFound(WebError(id, "No task with ID " + id))
    else Ok(Describe(reg.tasks[id], LogTail(files, id), probe))
  }

  /** `GET /{task_id}/log` and `/{task_id}/logs`: the log's lines, or not found. */
  function Logs(files: Files, id: TaskId): (r: Reply<seq<string>, WebError>)
    ensures !r.Created?
    ensures r.Ok? <==> LogLines(files, id).Some?
    ensures r.Ok? ==> r.body == LogLines(files, id).value
    ensures r.NotFound? ==> r.error == WebError(id, "No logs found for " + id)
  {
    match LogLines(files, id)
    case Some(lines) => Ok(lines)
    case None => NotFound(WebError(id, "No logs found for " + id))
  }

  /** `GET /{task_id}/download`: the task's output file, or not found. */
  function Download(files: Files, id: TaskId): (r: Reply<HoldingFile, WebError>)
    ensures !r.Created?
    ensures r.Ok? <==> OutputFor(files.holding, id).Some?
    ensures r.Ok? ==> NameWithoutExtension(r.body.name) == id && r.body in files.holding
    ensures r.NotFound? ==> r.error == WebError(id, "No download found for " + id)
  {
    match OutputFor(files.holding, id)
    case Some(file) => Ok(file)
    case None => NotFound(WebError(id, "No download found for " + id))
  }

  /**
   `POST /download`: a URL with a live task gets that task's ID, URL and arguments with
   created = false; any other URL starts a task under `freshId` and gets 201 with created = true.
   */
  function PostDownload(reg: Registry, request: DownloadRequest, freshId: TaskId): (r: (Reply<DownloadResponse, WebError>, Registry))
    ensures !r.0.NotFound?
    ensures r.0.Ok? <==> ByUrl(reg, request.url).Some?
    ensures r.0.Ok? ==> r.1 == reg && r.0.body == DownloadResponse(ByUrl(reg, request.url).value.taskID, false,
                                                                  ByUrl(reg, request.url).value.url,
                                                                  ByUrl(reg, request.url).value.parameters)
    ensures r.0.Created? ==>
      (r.0.body == DownloadResponse(freshId, true, request.url, request.args)
       && r.1 == Register(reg, freshId, request.url, request.args))
  {
    match ByUrl(reg, request.url)
    case Some(t) => (Ok(DownloadResponse(t.taskID, false, t.url, t.parameters)), reg)
    case None => (Created(DownloadResponse(freshId, true, request.url, request.args)),
                  Register(reg, freshId, request.url, request.args))
  }

  /** Posting keeps the registry valid, given a task ID no task has. */
  lemma PostDownloadValid(reg: Registry, request: DownloadRequest, freshId: TaskId)
    requires Valid(reg) && freshId !in reg.tasks
    ensures Valid(PostDownload(reg, request, freshId).1)
  {
    if ByUrl(reg, request.url).None? {
      RegisterValid(reg, freshId, request.url, request.args);
    }
  }

  /**
   Posting the same URL again, with any arguments, answers with the task the first post
   started (its ID, URL and original arguments) and changes nothing.
   */
  lemma PostDownloadDedup(reg: Registry, first: DownloadRequest, second: DownloadRequest, id1: TaskId, id2: TaskId)
    requires Valid(reg) && id1 !in reg.tasks && ByUrl(reg, first.url).None? && second.url == first.url
    ensures var (r1, reg1) := PostDownload(reg, first, id1);
      var (r2, reg2) := PostDownload(reg1, second, id2);
      && r1 == Created(DownloadResponse(id1, true, first.url, first.args))
      && r2 == Ok(DownloadResponse(id1, false, first.url, first.args))
      && reg2 == reg1
  {
  }

  // ---------------------------------------------------------------------------------------
  // Older server (src/…/ytdlbox.kt)

  /** The error objects the older routes answer with; the info route's has no task field. */
  datatype LegacyError = LegacyError(task: Option<TaskId>, error: string)

  /** The log part of the older info object, present when the log file exists. */
  datatype LegacyLog = LegacyLog(tail: Option<string>, lines: seq<string>)

  /** The JSON object of the older info route. */
  datatype LegacyInfo = LegacyInfo(
    taskID: TaskId, url: string, args: seq<string>, commandLine: seq<string>, logsLocation: string,
    status: ProcessStatus, log: Option<LegacyLog>, process: Option<Probe>, data: Option<string>)

  /**
   The older info route: the common fields, the log and its last line (null for an empty log)
   when the log exists, the process object only while RUNNING, and the download link only for
   COMPLETE_SUCCESS.
   */
  function LegacyInfoRoute(reg: Registry, files: Files, id: TaskId, probe: Probe): (r: Reply<LegacyInfo, LegacyError>)
    ensures !r.Created?
    ensures r.NotFound? <==> id !in reg.tasks
    ensures r.NotFound? ==> r.error == LegacyError(None, "No task with ID " + id)
    ensures r.Ok? ==> var t := reg.tasks[id];
      && r.body.taskID == t.taskID && r.body.url == t.url && r.body.args == t.parameters
      && r.body.commandLine == t.commandLine && r.body.status == t.status
      && r.body.logsLocation == LogsLocation(id)
      && (r.body.process.Some? <==> t.status == RUNNING)
      && (r.body.process.Some? ==> r.body.process.value == probe)
      && (r.body.data.Some? <==> t.status == COMPLETE_SUCCESS)
      && (r.body.data.Some? ==> r.body.data.value == DataLocation(id))
      && (r.body.log.Some? <==> id in files.logs)
      && (r.body.log.Some? ==> r.body.log.value == LegacyLog(LogTail(files, id), files.logs[id]))
  {
    if id !in reg.tasks then NotFound(LegacyError(None, "No task with ID " + id))
    else
      var t := reg.tasks[id];
      Ok(LegacyInfo(t.taskID, t.url, t.parameters, t.commandLine, LogsLocation(id), t.status,
                    if id in files.logs then Some(LegacyLog(LogTail(files, id), files.logs[id])) else None,
                    if t.status == RUNNING then Some(probe) else None,
                    if t.status == COMPLETE_SUCCESS then Some(DataLocation(id)) else None))
  }

  /** What selects the JSON rendering of the older logs route. */
  datatype LogQuery = LogQuery(jsonParam: bool, format: Option<string>, firstAccept: Option<string>)

  /** A `json` query parameter, `format=json`, or a first Accept item mentioning application/json. */
  predicate WantsJson(q: LogQuery) {
    q.jsonParam || q.format == Some("json")
    || (q.firstAccept.Some? && Text.Contains(q.firstAccept.value, "application/json"))
  }

  datatype LogsBody = JsonLines(lines: seq<string>) | PlainText(text: string)

  /**
   The older logs route: the lines as a JSON array or as newline-joined text; with no log file
   it writes no answer at all (none here).
   */
  function LegacyLogs(files: Files, id: TaskId, q: LogQuery): (r: Option<LogsBody>)
    ensures r.Some? <==> id in files.logs
    ensures r.Some? ==> (r.value.JsonLines? <==> WantsJson(q))
    ensures r.Some? && r.value.JsonLines? ==> r.value.lines == files.logs[id]
    ensures r.Some? && r.value.PlainText? ==> r.value.text == Text.Join(files.logs[id], "\n")
  {
    if id !in files.logs then None
    else if WantsJson(q) then Some(JsonLines(files.logs[id]))
    else Some(PlainText(Text.Join(files.logs[id], "\n")))
  }

  /** The older download route: the output, or an error object naming the task. */
  function LegacyDownload(files: Files, id: TaskId): (r: Reply<HoldingFile, LegacyError>)
    ensures !r.Created?
    ensures r.Ok? <==> OutputFor(files.holding, id).Some?
    ensures r.Ok? ==> r.body in files.holding && NameWithoutExtension(r.body.name) == id
    ensures r.Ok? ==> r.body == OutputFor(files.holding, id).value
    ensures r.NotFound? ==> r.error == LegacyError(Some(id), "No download found for " + id)
  {
    match OutputFor(files.holding, id)
    case Some(file) => Ok(file)
    case None => NotFound(LegacyError(Some(id), "No download found for " + id))
  }

  /**
   The older info route and the server's agree on every task of a consistent registry: found
   together, with the same identity, command line, status, logs link and last log line; the
   download link exactly for a successful description and the process object exactly for a
   running one.
   */
  lemma LegacyInfoAgrees(reg: Registry, files: Files, id: TaskId, probe: Probe)
    requires Valid(reg)
    ensures var a := Info(reg, files, id, probe);
      var b := LegacyInfoRoute(reg, files, id, probe);
      && a.Ok? == b.Ok?
      && (a.NotFound? ==> a.error.errorMessage == b.error.error)
      && (a.Ok? ==>
            && b.body.taskID == a.body.taskID && b.body.url == a.body.url && b.body.args == a.body.args
            && b.body.commandLine == a.body.commandLine && b.body.status == a.body.status
            && b.body.logsLocation == a.body.logsLocation
            && (b.body.data.Some? <==> a.body.Successful?)
            && (b.body.data.Some? ==> b.body.data.value == a.body.dataLocation)
            && (b.body.process.Some? <==> a.body.Running?)
            && (b.body.log.Some? ==> b.body.log.value.tail == a.body.logTail)
            && (b.body.log.None? ==> a.body.logTail.None?))
  {
  }

  /**
   The older logs route answers exactly when the server's finds the log, with the same lines:
   as they are for JSON, joined by newlines for text.
   */
  lemma LegacyLogsAgrees(files: Files, id: TaskId, q: LogQuery)
    ensures Logs(files, id).Ok? <==> LegacyLogs(files, id, q).Some?
    ensures LegacyLogs(files, id, q).Some? && LegacyLogs(files, id, q).value.JsonLines? ==>
      LegacyLogs(files, id, q).value.lines == Logs(files, id).body
    ensures LegacyLogs(files, id, q).Some? && LegacyLogs(files, id, q).value.PlainText? ==>
      LegacyLogs(files, id, q).value.text == Text.Join(Logs(files, id).body, "\n")
  {
  }

  /** Both download routes send the same file, and fail together with the same message. */
  lemma LegacyDownloadAgrees(files: Files, id: TaskId)
    ensures Download(files, id).Ok? == LegacyDownload(files, id).Ok?
    ensures Download(files, id).Ok? ==> Download(files, id).body == LegacyDownload(files, id).body
    ensures Download(files, id).NotFound? ==>
      Download(files, id).error.errorMessage == LegacyDownload(files, id).error.error
  {
  }

  /**
   The older `POST /download`: dedup by the URL map alone, and both answers echo the request's
   own URL and arguments rather than the task's.
   */
  function LegacyPostDownload(reg: Registry, request: DownloadRequest, freshId: TaskId): (r: (Reply<DownloadResponse, LegacyError>, Registry))
    ensures !r.0.NotFound?
    ensures r.0.Ok? <==> request.url in reg.urls
    ensures r.0.Ok? ==> r.1 == reg && r.0.body == DownloadResponse(reg.urls[request.url], false, request.url, request.args)
    ensures r.0.Created? ==>
      (r.0.body == DownloadResponse(freshId, true, request.url, request.args)
       && r.1 == Register(reg, freshId, request.url, request.args))
  {
    if request.url in reg.urls then (Ok(DownloadResponse(reg.urls[request.url], false, request.url, request.args)), reg)
    else (Created(DownloadResponse(freshId, true, request.url, request.args)),
          Register(reg, freshId, request.url, request.args))
  }

  /**
   On a valid registry both versions dedup the same way and name the same task; they differ
   only in the arguments reported for an existing task: the server reports the task's, the
   older one echoes the request's.
   */
  lemma PostDownloadVersionsAgree(reg: Registry, request: DownloadRequest, freshId: TaskId)
    requires Valid(reg)
    ensures var (a, ra) := PostDownload(reg, request, freshId);
      var (b, rb) := LegacyPostDownload(reg, request, freshId);
      && ra == rb && a.Ok? == b.Ok? && a.body.id == b.body.id && a.body.url == b.body.url
      && (a.Created? ==> a == Created(b.body))
      && (a.Ok? ==> a.body.args == reg.tasks[a.body.id].parameters && b.body.args == request.args)
  {
    ByUrlFinds(reg, request.url);
  }
}
