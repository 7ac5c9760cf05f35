/**
 The server's socket dispatch (`WebsocketControl.receiveRequest`): one request in, the
 responses the session sends back and the box's new state out; and `onCompletion`, the
 answer a listening session gets once the task it waits for has ended.
 */
module Dispatch {
  import opened Wrappers
  import opened DataObjects
  import opened Registry
  import opened TaskFiles
  import opened TaskView
  import opened ProxyPool
  import Routes

  /** What the box read from its configuration at start-up. */
  datatype Config = Config(ytdlProcess: string, defaultArgs: seq<string>, rotatingIpv6: bool,
                           completionActions: seq<CompletionActionFeatureSet>)

  /** The server's state: the task registry, the proxy pool when proxy listening is on, the files. */
  datatype Box = Box(reg: Registry, pool: Option<Pool>, files: Files, config: Config)

  /**
   What handling a request draws from outside: the ID a new task would get, the iteration
   order of the proxy map, and what probing a running task's process gives.
   */
  datatype Env = Env(freshId: TaskId, order: seq<DownloadProxy>, probe: Probe)

  /** The log's lines, or none when the log file does not exist. */
  function LinesOrEmpty(files: Files, id: TaskId): seq<string> {
    if id in files.logs then files.logs[id] else []
  }

  /**
   `onCompletion`: success for a task that ended COMPLETE_SUCCESS, with the output's bytes only
   when the listener asked for data; failure (no error classification) for any other status.
   */
  function OnCompletion(nonce: Nonce, t: Task, files: Files, listenFor: ListenCondition): (r: Response)
    ensures r.nonce == nonce
    ensures r.DownloadSuccess? <==> t.status == COMPLETE_SUCCESS
    ensures r.DownloadFailure? <==> t.status != COMPLETE_SUCCESS
    ensures r.taskID == t.taskID && r.url == t.url && r.commandLine == t.commandLine
    ensures r.logs == LinesOrEmpty(files, t.taskID)
    ensures r.DownloadSuccess? && listenFor != LISTEN_WITH_DATA ==> r.output == []
    ensures r.DownloadSuccess? && listenFor == LISTEN_WITH_DATA ==>
      r.output == (if OutputFor(files.holding, t.taskID).Some? then OutputFor(files.holding, t.taskID).value.bytes else [])
    ensures r.DownloadSuccess? ==> (r.mimeType.Some? <==> OutputFor(files.holding, t.taskID).Some?)
    ensures r.DownloadFailure? ==> r.error == None
  {
    var logs := LinesOrEmpty(files, t.taskID);
    if t.status == COMPLETE_SUCCESS then
      var output := OutputFor(files.holding, t.taskID);
      var bytes := if listenFor == LISTEN_WITH_DATA && output.Some? then output.value.bytes else [];
      var mimeType := if output.Some? then Some(output.value.mimeType) else None;
      DownloadSuccess(nonce, t.taskID, t.url, t.commandLine, bytes, mimeType, logs)
    else
      DownloadFailure(nonce, t.taskID, t.url, t.commandLine, logs)
  }

  /** The `Downloading` acknowledgement for a task. */
  function Acknowledge(nonce: Nonce, t: Task, created: bool): Response {
    Downloading(nonce, t.taskID, created, t.url, t.parameters)
  }

  /** A `Download` request: dedup by URL, then answer now, register a listener, or start a task. */
  function ReceiveDownload(box: Box, session: nat, nonce: Nonce, request: DownloadRequest, listenFor: ListenCondition,
                           freshId: TaskId): (r: (seq<Response>, Box))
    ensures 1 <= |r.0| <= 2 && r.0[0].Downloading?
    ensures forall i :: 0 <= i < |r.0| ==> r.0[i].nonce == nonce
    ensures r.1.pool == box.pool && r.1.files == box.files && r.1.config == box.config
  {
    var listener := Listener(session, nonce, listenFor);
    var listening := listenFor != DO_NOT_LISTEN;
    match ByUrl(box.reg, request.url)
    case Some(t) =>
      if t.status.IsComplete() then
        ([Acknowledge(nonce, t, false)] + (if listening then [OnCompletion(nonce, t, box.files, listenFor)] else []), box)
      else
        ([Acknowledge(nonce, t, false)],
         if listening then box.(reg := AddListener(box.reg, t.taskID, listener)) else box)
    case None =>
      var filed := Register(box.reg, freshId, request.url, request.args);
      ([Acknowledge(nonce, NewTask(freshId, request.url, request.args), true)],
       box.(reg := if listening then AddListener(filed, freshId, listener) else filed))
  }

  /** `receiveRequest`: the responses sent for one request, in order, and the box afterwards. */
  function Receive(box: Box, session: nat, req: Request, env: Env): (r: (seq<Response>, Box))
    ensures |r.0| >= 1 && forall i :: 0 <= i < |r.0| ==> r.0[i].nonce == req.nonce
    ensures r.1.files == box.files && r.1.config == box.config
    ensures !req.Download? ==> r.1.reg == box.reg && |r.0| == 1
    ensures !(req.AddProxyServer? || req.RemoveProxyServer?) ==> r.1.pool == box.pool
  {
    match req
    case AddProxyServer(nonce, proxy) =>
      (match box.pool
       case Some(pool) => ([AddedProxyServer(nonce, proxy)], box.(pool := Some(Add(pool, proxy))))
       case None => ([NoProxyListener(nonce)], box))
    case RemoveProxyServer(nonce, address) =>
      (match box.pool
       case Some(pool) =>
         var (rest, removed) := Remove(pool, address, env.order);
         ([RemovedProxyServer(nonce, removed)], box.(pool := Some(rest)))
       case None => ([NoProxyListener(nonce)], box))
    case Download(nonce, request, listenFor) =>
      ReceiveDownload(box, session, nonce, request, listenFor, env.freshId)
    case GetServerInfo(nonce) =>
      ([ServerInfo(nonce, FeatureSet(box.config.ytdlProcess, box.config.defaultArgs, box.config.rotatingIpv6,
                                     box.pool.Some?, box.config.completionActions))], box)
    case GetTaskInfo(nonce, id) =>
      if id in box.reg.tasks then
        ([TaskInfoResponse(nonce, Describe(box.reg.tasks[id], LogTail(box.files, id), env.probe))], box)
      else ([NoTaskWithID(nonce, id)], box)
    case GetTaskLogs(nonce, id) =>
      ([TaskLogs(nonce, LinesOrEmpty(box.files, id))], box)
    case GetTaskDownload(nonce, id) =>
      (match OutputFor(box.files.holding, id)
       case Some(f) => ([TaskDownload(nonce, f.bytes, Some(f.mimeType))], box)
       case None => ([NoDownloadForTaskAvailable(nonce, id)], box))
  }

  /** Where a response goes: the session and the response. */
  datatype Outbound = Outbound(session: nat, response: Response)

  /**
   The answers the completion callbacks send when a task's loop ends: one per listener hook,
   to the listener's session, built from the task as it then stands; other hooks send nothing.
   */
  function Answers(fired: seq<Fired>, t: Task, files: Files): (out: seq<Outbound>)
    ensures |out| <= |fired|
    ensures (forall i :: 0 <= i < |fired| ==> fired[i].CompletionHook?) ==>
      |out| == |fired| && forall i :: 0 <= i < |fired| ==>
        out[i] == Outbound(fired[i].listener.session,
                           OnCompletion(fired[i].listener.nonce, t, files, fired[i].listener.listenFor))
  {
    if |fired| == 0 then []
    else
      var rest := Answers(fired[1..], t, files);
      match fired[0]
      case SuccessHook(_) => rest
      case CompletionHook(l) => [Outbound(l.session, OnCompletion(l.nonce, t, files, l.listenFor))] + rest
  }

  /** The completion hooks of `listeners`, in order. */
  function HooksOf(listeners: seq<Listener>): (fired: seq<Fired>)
    ensures |fired| == |listeners|
    ensures forall i :: 0 <= i < |listeners| ==> fired[i] == CompletionHook(listeners[i])
  {
    seq(|listeners|, i requires 0 <= i < |listeners| => CompletionHook(listeners[i]))
  }

  /** Every listener whose hook fires is answered once, in order, on its own session with its own nonce. */
  lemma AnswersListeners(listeners: seq<Listener>, t: Task, files: Files)
    ensures var out := Answers(HooksOf(listeners), t, files);
      && |out| == |listeners|
      && forall i :: 0 <= i < |listeners| ==>
           out[i].session == listeners[i].session && out[i].response.nonce == listeners[i].nonce
           && out[i].response == OnCompletion(listeners[i].nonce, t, files, listeners[i].listenFor)
  {
  }

  // ---------------------------------------------------------------------------------------
  // Properties of the dispatch

  /** A download request is acknowledged first and exactly once, created iff its URL had no live task. */
  lemma DownloadAcknowledged(box: Box, session: nat, nonce: Nonce, request: DownloadRequest,
                             listenFor: ListenCondition, env: Env)
    requires Valid(box.reg)
    ensures var (out, next) := Receive(box, session, Download(nonce, request, listenFor), env);
      && out[0].created == ByUrl(box.reg, request.url).None?
      && (forall i :: 1 <= i < |out| ==> !out[i].Downloading?)
      && (ByUrl(box.reg, request.url).Some? ==>
            var t := ByUrl(box.reg, request.url).value;
            out[0] == Downloading(nonce, t.taskID, false, t.url, t.parameters) && t.url == request.url)
      && (ByUrl(box.reg, request.url).None? ==>
            out == [Downloading(nonce, env.freshId, true, request.url, request.args)])
  {
    ByUrlFinds(box.reg, request.url);
  }

  /**
   The listener a download request leaves behind: none for DO_NOT_LISTEN; for a task that
   has already completed, none either, but the completion answer follows the acknowledgement
   at once; otherwise exactly one, appended to the task's completion hooks.
   */
  lemma DownloadListener(box: Box, session: nat, nonce: Nonce, request: DownloadRequest,
                         listenFor: ListenCondition, env: Env)
    requires Valid(box.reg) && env.freshId !in box.reg.tasks
    ensures var (out, next) := Receive(box, session, Download(nonce, request, listenFor), env);
      var existing := ByUrl(box.reg, request.url);
      var id := if existing.Some? then existing.value.taskID else env.freshId;
      var before := if existing.Some? then existing.value.onComplete else [];
      && id in next.reg.tasks
      && (forall other :: other in box.reg.tasks && other != id ==> next.reg.tasks[other] == box.reg.tasks[other])
      && (listenFor == DO_NOT_LISTEN ==> |out| == 1 && next.reg.tasks[id].onComplete == before)
      && (listenFor != DO_NOT_LISTEN && existing.Some? && existing.value.status.IsComplete() ==>
            && out == [out[0], OnCompletion(nonce, existing.value, box.files, listenFor)]
            && next.reg == box.reg)
      && (listenFor != DO_NOT_LISTEN && !(existing.Some? && existing.value.status.IsComplete()) ==>
            |out| == 1 && next.reg.tasks[id].onComplete == before + [Listener(session, nonce, listenFor)])
  {
    ByUrlFinds(box.reg, request.url);
  }

  /** Dispatch keeps the registry valid, given a task ID no task has. */
  lemma ReceiveValid(box: Box, session: nat, req: Request, env: Env)
    requires Valid(box.reg) && env.freshId !in box.reg.tasks
    ensures Valid(Receive(box, session, req, env).1.reg)
  {
    if req.Download? {
      var listener := Listener(session, req.nonce, req.listenFor);
      match ByUrl(box.reg, req.request.url)
      case Some(t) =>
        AddListenerValid(box.reg, t.taskID, listener);
      case None =>
        var filed := Register(box.reg, env.freshId, req.request.url, req.request.args);
        RegisterValid(box.reg, env.freshId, req.request.url, req.request.args);
        AddListenerValid(filed, env.freshId, listener);
    }
  }

  /** Proxy requests are refused with `NoProxyListener` exactly when the box has no pool. */
  lemma NoProxyListenerIffNoPool(box: Box, session: nat, req: Request, env: Env)
    requires req.AddProxyServer? || req.RemoveProxyServer?
    ensures var (out, next) := Receive(box, session, req, env);
      && (out == [NoProxyListener(req.nonce)] <==> box.pool.None?)
      && (box.pool.None? ==> next == box)
      && (req.AddProxyServer? && box.pool.Some? ==>
            out == [AddedProxyServer(req.nonce, req.proxy)] && next.pool == Some(Add(box.pool.value, req.proxy)))
      && (req.RemoveProxyServer? && box.pool.Some? ==>
            var (rest, removed) := Remove(box.pool.value, req.address, env.order);
            out == [RemovedProxyServer(req.nonce, removed)] && next.pool == Some(rest))
  {
  }

  /** Proxy requests keep the pool's addresses unique. */
  lemma ReceiveKeepsAddressesUnique(box: Box, session: nat, req: Request, env: Env)
    requires box.pool.Some? && UniqueAddresses(box.pool.value.loads)
    ensures var next := Receive(box, session, req, env).1;
      next.pool.Some? && UniqueAddresses(next.pool.value.loads)
  {
    var pool := box.pool.value;
    match req
    case AddProxyServer(_, proxy) =>
      UniqueAddressesPreserved(pool, proxy, "", env.order, false);
    case RemoveProxyServer(_, address) =>
      UniqueAddressesPreserved(pool, DownloadProxy("", 0), address, env.order, false);
    case _ =>
  }

  /** `GetTaskInfo` answers exactly what the info route answers, or `NoTaskWithID` where it is not found. */
  lemma TaskInfoAgreesWithRoute(box: Box, session: nat, nonce: Nonce, id: TaskId, env: Env)
    ensures var out := Receive(box, session, GetTaskInfo(nonce, id), env).0;
      var reply := Routes.Info(box.reg, box.files, id, env.probe);
      && (reply.Ok? ==> out == [TaskInfoResponse(nonce, reply.body)])
      && (reply.NotFound? <==> out == [NoTaskWithID(nonce, id)])
  {
  }

  /** `GetTaskDownload` serves the file the download route serves, and refuses where it is not found. */
  lemma TaskDownloadAgreesWithRoute(box: Box, session: nat, nonce: Nonce, id: TaskId, env: Env)
    ensures var out := Receive(box, session, GetTaskDownload(nonce, id), env).0;
      var reply := Routes.Download(box.files, id);
      && (reply.Ok? ==> out == [TaskDownload(nonce, reply.body.bytes, Some(reply.body.mimeType))])
      && (reply.NotFound? <==> out == [NoDownloadForTaskAvailable(nonce, id)])
  {
  }

  /** `GetTaskLogs` always answers: the route's lines where the route finds the log, nothing where it does not. */
  lemma TaskLogsAgreesWithRoute(box: Box, session: nat, nonce: Nonce, id: TaskId, env: Env)
    ensures var out := Receive(box, session, GetTaskLogs(nonce, id), env).0;
      var reply := Routes.Logs(box.files, id);
      && (reply.Ok? ==> out == [TaskLogs(nonce, reply.body)])
      && (reply.NotFound? ==> out == [TaskLogs(nonce, [])])
  {
  }

  /**
   The socket's `Download` and `POST /download` agree: the same task ID, created flag, URL and
   arguments, and, for a request that does not listen, the same registry afterwards.
   */
  lemma DownloadAgreesWithPost(box: Box, session: nat, nonce: Nonce, request: DownloadRequest,
                               listenFor: ListenCondition, env: Env)
    ensures var (out, next) := Receive(box, session, Download(nonce, request, listenFor), env);
      var (reply, reg) := Routes.PostDownload(box.reg, request, env.freshId);
      && out[0] == Downloading(nonce, reply.body.id, reply.body.created, reply.body.url, reply.body.args)
      && (listenFor == DO_NOT_LISTEN ==> next.reg == reg)
  {
  }

  /** The server info reports the configuration, and proxy listening iff the box has a pool. */
  lemma ServerInfoReports(box: Box, session: nat, nonce: Nonce, env: Env)
    ensures var out := Receive(box, session, GetServerInfo(nonce), env).0;
      && out[0].ServerInfo?
      && out[0].featureSet.listeningForProxy == box.pool.Some?
      && out[0].featureSet.ytdlProcess == box.config.ytdlProcess
      && out[0].featureSet.defaultArgs == box.config.defaultArgs
  {
  }
}
