/**
 The shared data objects exchanged between server and client: task status, download
 requests and their dedup key, proxies, and the nonce-tagged request and response unions
 of the socket protocol.
 */
module DataObjects {
  import opened Wrappers
  import Text

  type TaskId = string

  /** A protocol nonce: a Kotlin `Long`, kept as its 64-bit pattern. */
  type Nonce = bv64

  type Bytes = seq<bv8>

  /** Lifecycle status of a task. */
  datatype ProcessStatus = INITIALISING | RUNNING | COMPLETE_SUCCESS | COMPLETE_FAILURE | SHUTTING_DOWN {

    /** The enum's `isComplete` flag. */
    predicate IsComplete() {
      match this
      case COMPLETE_SUCCESS => true
      case COMPLETE_FAILURE => true
      case _ => false
    }
  }

  datatype CompletionRequest = UploadWithRClone(path: string)

  datatype DownloadRequest = DownloadRequest(
    url: string,
    args: seq<string> := [],
    completionActions: seq<CompletionRequest> := [])

  /**
   `DownloadRequest.key()`: the URL followed by the arguments joined with ", " in parentheses.
   Nothing in the server uses it for deduplication (which goes by URL alone).
   */
  function Key(r: DownloadRequest): (k: string)
    ensures r.url <= k
    ensures |k| >= |r.url| + 3 && k[|r.url|..|r.url| + 2] == " (" && k[|k| - 1] == ')'
    ensures k[|r.url| + 2..|k| - 1] == Text.Join(r.args, ", ")
  {
    r.url + " (" + Text.Join(r.args, ", ") + ")"
  }

  /**
   Two requests for one URL whose (non-empty, comma-free) argument lists differ get different
   keys: the key does tell them apart, even though deduplication ignores it.
   */
  lemma KeySeparatesArgs(a: DownloadRequest, b: DownloadRequest)
    requires a.url == b.url && |a.args| >= 1 && |b.args| >= 1
    requires Text.NoneContains(a.args, ',') && Text.NoneContains(b.args, ',')
    requires a.args != b.args
    ensures Key(a) != Key(b)
  {
    if Key(a) == Key(b) {
      var ka, kb := Key(a), Key(b);
      assert ka[|a.url| + 2..|ka| - 1] == kb[|b.url| + 2..|kb| - 1];
      Text.JoinInjective(a.args, b.args);
    }
  }

  /** The reply to `POST /download`. */
  datatype DownloadResponse = DownloadResponse(id: TaskId, created: bool, url: string, args: seq<string>)

  /** The body of a not-found answer. */
  datatype WebError = WebError(id: TaskId, errorMessage: string)

  datatype ProcessHandleInfo = ProcessHandleInfo(
    pid: int,
    command: Option<string>,
    arguments: seq<string>,
    commandLine: Option<string>,
    startTime: Option<string>)

  /** The status-dependent task description returned by the info route and `GetTaskInfo`. */
  datatype TaskInfo =
    | Generic(taskID: TaskId, url: string, args: seq<string>, commandLine: seq<string>,
              logsLocation: string, status: ProcessStatus, logTail: Option<string>)
    | Running(taskID: TaskId, url: string, args: seq<string>, commandLine: seq<string>,
              logsLocation: string, status: ProcessStatus, logTail: Option<string>,
              processInfo: Option<ProcessHandleInfo>, processError: Option<string>)
    | Successful(taskID: TaskId, url: string, args: seq<string>, commandLine: seq<string>,
                 logsLocation: string, status: ProcessStatus, logTail: Option<string>,
                 dataLocation: string)

  datatype DownloadProxy = DownloadProxy(address: string, limit: int, errorLimit: int := 3)

  datatype ListenCondition = DO_NOT_LISTEN | LISTEN_WITH_DATA | LISTEN_NO_DATA

  datatype YtdlError = Unknown | VideoNotAvailable | ConnectionForciblyClosed

  datatype CompletionActionFeatureSet = RClone(
    rcloneProcess: string,
    endpoint: string,
    endpointType: Option<string>,
    basePath: Option<string>,
    resultingBaseUrl: Option<string>)

  datatype FeatureSet = FeatureSet(
    ytdlProcess: string,
    defaultArgs: seq<string>,
    rotatingIpv6: bool,
    listeningForProxy: bool,
    completionActions: seq<CompletionActionFeatureSet>)

  /** A socket request; every variant carries the caller's nonce. */
  datatype Request =
    | Download(nonce: Nonce, request: DownloadRequest, listenFor: ListenCondition := DO_NOT_LISTEN)
    | AddProxyServer(nonce: Nonce, proxy: DownloadProxy)
    | RemoveProxyServer(nonce: Nonce, address: string)
    | GetServerInfo(nonce: Nonce)
    | GetTaskInfo(nonce: Nonce, taskID: TaskId)
    | GetTaskLogs(nonce: Nonce, taskID: TaskId)
    | GetTaskDownload(nonce: Nonce, taskID: TaskId)

  /** A socket response; every variant carries the nonce of the request it answers. */
  datatype Response =
    | Downloading(nonce: Nonce, taskID: TaskId, created: bool, url: string, args: seq<string>)
    | AddedProxyServer(nonce: Nonce, proxy: DownloadProxy)
    | RemovedProxyServer(nonce: Nonce, removed: Option<DownloadProxy>)
    | NoProxyListener(nonce: Nonce)
    | DownloadFailure(nonce: Nonce, taskID: TaskId, url: string, commandLine: seq<string>,
                      logs: seq<string>, error: Option<YtdlError> := None)
    | DownloadSuccess(nonce: Nonce, taskID: TaskId, url: string, commandLine: seq<string>,
                      output: Bytes, mimeType: Option<string>, logs: seq<string>)
    | ServerInfo(nonce: Nonce, featureSet: FeatureSet)
    | NoTaskWithID(nonce: Nonce, taskID: TaskId)
    | TaskInfoResponse(nonce: Nonce, taskInfo: TaskInfo)
    | TaskLogs(nonce: Nonce, lines: seq<string>)
    | NoDownloadForTaskAvailable(nonce: Nonce, taskID: TaskId)
    | TaskDownload(nonce: Nonce, output: Bytes, mimeType: Option<string>)

  /** The response classes a client can wait for (`response is T`). */
  datatype ResponseKind =
    | DownloadingKind | AddedProxyServerKind | RemovedProxyServerKind | NoProxyListenerKind
    | DownloadFailureKind | DownloadSuccessKind | ServerInfoKind | NoTaskWithIDKind
    | TaskInfoKind | TaskLogsKind | NoDownloadForTaskAvailableKind | TaskDownloadKind

  function KindOf(r: Response): ResponseKind {
    match r
    case Downloading(_, _, _, _, _) => DownloadingKind
    case AddedProxyServer(_, _) => AddedProxyServerKind
    case RemovedProxyServer(_, _) => RemovedProxyServerKind
    case NoProxyListener(_) => NoProxyListenerKind
    case DownloadFailure(_, _, _, _, _, _) => DownloadFailureKind
    case DownloadSuccess(_, _, _, _, _, _, _) => DownloadSuccessKind
    case ServerInfo(_, _) => ServerInfoKind
    case NoTaskWithID(_, _) => NoTaskWithIDKind
    case TaskInfoResponse(_, _) => TaskInfoKind
    case TaskLogs(_, _) => TaskLogsKind
    case NoDownloadForTaskAvailable(_, _) => NoDownloadForTaskAvailableKind
    case TaskDownload(_, _, _) => TaskDownloadKind
  }

  /** The defaults the data classes declare for omitted fields. */
  lemma Defaults(url: string, nonce: Nonce, address: string, limit: int, taskID: TaskId,
                 cmd: seq<string>, logs: seq<string>)
    ensures DownloadRequest(url).args == [] && DownloadRequest(url).completionActions == []
    ensures Download(nonce, DownloadRequest(url)).listenFor == DO_NOT_LISTEN
    ensures DownloadProxy(address, limit).errorLimit == 3
    ensures DownloadFailure(nonce, taskID, url, cmd, logs).error == None
  {
  }
}
