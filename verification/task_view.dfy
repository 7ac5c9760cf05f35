/**
 The status-dependent description of a task that both the `/{task_id}/info` route and the
 socket's `GetTaskInfo` return, and the two links it carries.
 */
module TaskView {
  import opened Wrappers
  import opened DataObjects
  import opened Registry
  import Text

  /** Where a task's log can be fetched. */
  function LogsLocation(id: TaskId): string {
    "/" + id + "/logs"
  }

  /** Where a task's output can be fetched. */
  function DataLocation(id: TaskId): string {
    "/" + id + "/download"
  }

  /**
   What querying a running task's process handle gives: the handle's details, or the stack
   trace of the `UnsupportedOperationException` the platform throws instead.
   */
  datatype Probe = Probed(info: ProcessHandleInfo) | Unsupported(trace: string)

  /**
   The description: `Running` (with the process details or the error) for RUNNING,
   `Successful` (with the download link) for COMPLETE_SUCCESS, `Generic` for every other
   status; every variant carries the task's identity, command line, status, the logs link
   and the last log line.
   */
  function Describe(t: Task, logTail: Option<string>, probe: Probe): (info: TaskInfo)
    ensures info.Running? <==> t.status == RUNNING
    ensures info.Successful? <==> t.status == COMPLETE_SUCCESS
    ensures info.Generic? <==> t.status in {INITIALISING, COMPLETE_FAILURE, SHUTTING_DOWN}
    ensures info.taskID == t.taskID && info.url == t.url && info.args == t.parameters
    ensures info.commandLine == t.commandLine && info.status == t.status && info.logTail == logTail
    ensures info.logsLocation == LogsLocation(t.taskID)
    ensures info.Successful? ==> info.dataLocation == DataLocation(t.taskID)
    ensures info.Running? ==> (info.processInfo.Some? <==> probe.Probed?) && (info.processError.Some? <==> probe.Unsupported?)
  {
    match t.status
    case RUNNING =>
      Running(t.taskID, t.url, t.parameters, t.commandLine, LogsLocation(t.taskID), t.status, logTail,
              if probe.Probed? then Some(probe.info) else None,
              if probe.Unsupported? then Some(probe.trace) else None)
    case COMPLETE_SUCCESS =>
      Successful(t.taskID, t.url, t.parameters, t.commandLine, LogsLocation(t.taskID), t.status, logTail,
                 DataLocation(t.taskID))
    case _ =>
      Generic(t.taskID, t.url, t.parameters, t.commandLine, LogsLocation(t.taskID), t.status, logTail)
  }

  // ---------------------------------------------------------------------------------------
  // The `/{task_id}` route table

  datatype TaskRoute = InfoRoute | LogsRoute | DownloadRoute

  /** The sub-paths under `/{task_id}`: `/` and `/info`, `/log` and `/logs`, `/download`. */
  function SubRoute(suffix: string): Option<TaskRoute> {
    if suffix == "" || suffix == "/" || suffix == "/info" then Some(InfoRoute)
    else if suffix == "/log" || suffix == "/logs" then Some(LogsRoute)
    else if suffix == "/download" then Some(DownloadRoute)
    else None
  }

  /** The task ID segment and the route a request path selects. */
  function ParsePath(path: string): (r: Option<(TaskId, TaskRoute)>)
    ensures r.Some? ==> |r.value.0| > 0 && '/' !in r.value.0
  {
    if |path| == 0 || path[0] != '/' then None
    else
      var rest := path[1..];
      var k := if '/' in rest then Text.IndexOf(rest, '/') else |rest|;
      if k == 0 then None
      else match SubRoute(rest[k..])
        case None => None
        case Some(route) => Some((rest[..k], route))
  }

  /** A path made of a slash, a task ID and a known sub-path selects that task and that route. */
  lemma ParseJoined(id: TaskId, suffix: string)
    requires |id| > 0 && '/' !in id && |suffix| > 0 && suffix[0] == '/' && SubRoute(suffix).Some?
    ensures ParsePath("/" + id + suffix) == Some((id, SubRoute(suffix).value))
  {
    var rest := ("/" + id + suffix)[1..];
    assert rest == id + suffix;
    assert suffix[0] == '/';
    Text.IndexOfAfterPrefix(id, suffix, '/');
    assert rest[|id|..] == suffix;
    assert rest[..|id|] == id;
  }

  /**
   The links a description carries lead back to the same task: the logs link to its logs
   route, the download link to its download route.
   */
  lemma LinksRoute(id: TaskId)
    requires |id| > 0 && '/' !in id
    ensures ParsePath(LogsLocation(id)) == Some((id, LogsRoute))
    ensures ParsePath(DataLocation(id)) == Some((id, DownloadRoute))
  {
    ParseJoined(id, "/logs");
    ParseJoined(id, "/download");
  }
}
