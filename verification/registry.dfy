/**
 The task registry: `ongoingTasks` (task ID to task) and `incomingUrls` (URL to task ID), and
 the steps a task's coroutine and the socket sessions apply to it. A task object is shared
 between the registry and its coroutine, so field writes are modelled as updates of the entry.
 */
module Registry {
  import opened Wrappers
  import opened DataObjects

  /** A completion listener a socket session appended to a task's `onComplete` list. */
  datatype Listener = Listener(session: nat, nonce: Nonce, listenFor: ListenCondition)

  /**
   An ongoing task: its identity, the command line of its latest attempt, its status and its
   callback lists (success hooks are opaque, completion hooks are session listeners).
   */
  datatype Task = Task(taskID: TaskId, url: string, parameters: seq<string>, commandLine: seq<string>,
                       status: ProcessStatus, onSuccess: seq<nat>, onComplete: seq<Listener>)

  datatype Registry = Registry(tasks: map<TaskId, Task>, urls: map<string, TaskId>)

  const Empty := Registry(map[], map[])

  /** Every task is filed under its own ID and its URL, and every URL names a task with that URL. */
  predicate Valid(reg: Registry) {
    && (forall id :: id in reg.tasks ==>
          reg.tasks[id].taskID == id && reg.tasks[id].url in reg.urls && reg.urls[reg.tasks[id].url] == id)
    && (forall u :: u in reg.urls ==> reg.urls[u] in reg.tasks && reg.tasks[reg.urls[u]].url == u)
  }

  /** The dedup lookup: the URL's task ID, then the task under that ID. */
  function ByUrl(reg: Registry, url: string): Option<Task> {
    if url in reg.urls && reg.urls[url] in reg.tasks then Some(reg.tasks[reg.urls[url]]) else None
  }

  /** In a valid registry the lookup by URL finds exactly the task whose URL it is. */
  lemma ByUrlFinds(reg: Registry, url: string)
    requires Valid(reg)
    ensures ByUrl(reg, url).Some? <==> exists id :: id in reg.tasks && reg.tasks[id].url == url
    ensures ByUrl(reg, url).Some? ==>
      (ByUrl(reg, url).value.url == url && reg.tasks[ByUrl(reg, url).value.taskID] == ByUrl(reg, url).value)
  {
    if exists id :: id in reg.tasks && reg.tasks[id].url == url {
      var id :| id in reg.tasks && reg.tasks[id].url == url;
      assert reg.urls[url] == id;
    }
  }

  function NewTask(id: TaskId, url: string, parameters: seq<string>): Task {
    Task(id, url, parameters, [], INITIALISING, [], [])
  }

  /** Filing a freshly started task under its ID and its URL. */
  function Register(reg: Registry, id: TaskId, url: string, parameters: seq<string>): (r: Registry)
    ensures ByUrl(r, url) == Some(NewTask(id, url, parameters))
    ensures r.tasks.Keys == reg.tasks.Keys + {id}
    ensures forall other :: other in reg.tasks && other != id ==> r.tasks[other] == reg.tasks[other]
  {
    Registry(reg.tasks[id := NewTask(id, url, parameters)], reg.urls[url := id])
  }

  /** A write to one task's command line and status; no effect on a task that is not filed. */
  function Progress(reg: Registry, id: TaskId, commandLine: seq<string>, status: ProcessStatus): (r: Registry)
    ensures r.urls == reg.urls && r.tasks.Keys == reg.tasks.Keys
    ensures forall other :: other in reg.tasks && other != id ==> r.tasks[other] == reg.tasks[other]
    ensures id in reg.tasks ==> r.tasks[id] == reg.tasks[id].(commandLine := commandLine, status := status)
  {
    if id in reg.tasks then
      reg.(tasks := reg.tasks[id := reg.tasks[id].(commandLine := commandLine, status := status)])
    else reg
  }

  /** A write to one task's status alone. */
  function SetStatus(reg: Registry, id: TaskId, status: ProcessStatus): (r: Registry)
    ensures r.urls == reg.urls && r.tasks.Keys == reg.tasks.Keys
    ensures forall other :: other in reg.tasks && other != id ==> r.tasks[other] == reg.tasks[other]
    ensures id in reg.tasks ==> r.tasks[id] == reg.tasks[id].(status := status)
  {
    if id in reg.tasks then reg.(tasks := reg.tasks[id := reg.tasks[id].(status := status)]) else reg
  }

  /** `onComplete.add`: a listener appended after those already there. */
  function AddListener(reg: Registry, id: TaskId, l: Listener): (r: Registry)
    ensures r.urls == reg.urls && r.tasks.Keys == reg.tasks.Keys
    ensures forall other :: other in reg.tasks && other != id ==> r.tasks[other] == reg.tasks[other]
    ensures id in reg.tasks ==> r.tasks[id] == reg.tasks[id].(onComplete := reg.tasks[id].onComplete + [l])
  {
    if id in reg.tasks then
      reg.(tasks := reg.tasks[id := reg.tasks[id].(onComplete := reg.tasks[id].onComplete + [l])])
    else reg
  }

  /** A callback invocation at the end of the loop. */
  datatype Fired = SuccessHook(hook: nat) | CompletionHook(listener: Listener)

  /**
   The callbacks run at the end of the loop: the success hooks, only when the loop succeeded
   and an output file exists, then every completion hook, each list in its own order.
   */
  function FireHooks(t: Task, successful: bool, outputExists: bool): (fired: seq<Fired>)
    ensures var k := if successful && outputExists then |t.onSuccess| else 0;
      && |fired| == k + |t.onComplete|
      && (forall i :: 0 <= i < k ==> fired[i] == SuccessHook(t.onSuccess[i]))
      && (forall i :: 0 <= i < |t.onComplete| ==> fired[k + i] == CompletionHook(t.onComplete[i]))
  {
    var successes := seq(|t.onSuccess|, i requires 0 <= i < |t.onSuccess| => SuccessHook(t.onSuccess[i]));
    var completions := seq(|t.onComplete|, i requires 0 <= i < |t.onComplete| => CompletionHook(t.onComplete[i]));
    (if successful && outputExists then successes else []) + completions
  }

  /** The status the loop's verdict selects. */
  function FinalStatus(successful: bool): (s: ProcessStatus)
    ensures s.IsComplete()
    ensures s == COMPLETE_SUCCESS <==> successful
  {
    if successful then COMPLETE_SUCCESS else COMPLETE_FAILURE
  }

  /** The end of the loop: the final status is written, then the hooks of the task as it now stands run. */
  function Complete(reg: Registry, id: TaskId, successful: bool, outputExists: bool): (r: (Registry, seq<Fired>))
    ensures r.0 == SetStatus(reg, id, FinalStatus(successful))
    ensures id !in reg.tasks ==> r.1 == []
    ensures id in reg.tasks ==> r.1 == FireHooks(r.0.tasks[id], successful, outputExists)
  {
    var next := SetStatus(reg, id, FinalStatus(successful));
    (next, if id in next.tasks then FireHooks(next.tasks[id], successful, outputExists) else [])
  }

  /** The removal after the grace period: the ID from the task map and the task's URL from the URL map. */
  function Expire(reg: Registry, id: TaskId, url: string): (r: Registry)
    ensures id !in r.tasks && url !in r.urls
    ensures forall other :: other in reg.tasks && other != id ==> other in r.tasks && r.tasks[other] == reg.tasks[other]
    ensures forall u :: u in reg.urls && u != url ==> u in r.urls && r.urls[u] == reg.urls[u]
  {
    Registry(reg.tasks - {id}, reg.urls - {url})
  }

  // ---------------------------------------------------------------------------------------
  // The invariant across the steps

  lemma RegisterValid(reg: Registry, id: TaskId, url: string, parameters: seq<string>)
    requires Valid(reg) && id !in reg.tasks && ByUrl(reg, url).None?
    ensures Valid(Register(reg, id, url, parameters))
  {
    assert url !in reg.urls;
  }

  lemma ProgressValid(reg: Registry, id: TaskId, commandLine: seq<string>, status: ProcessStatus)
    requires Valid(reg)
    ensures Valid(Progress(reg, id, commandLine, status))
  {
  }

  lemma SetStatusValid(reg: Registry, id: TaskId, status: ProcessStatus)
    requires Valid(reg)
    ensures Valid(SetStatus(reg, id, status))
  {
  }

  lemma AddListenerValid(reg: Registry, id: TaskId, l: Listener)
    requires Valid(reg)
    ensures Valid(AddListener(reg, id, l))
  {
  }

  /** Removing a task under its own URL keeps the registry valid. */
  lemma ExpireValid(reg: Registry, id: TaskId, url: string)
    requires Valid(reg) && id in reg.tasks && reg.tasks[id].url == url
    ensures Valid(Expire(reg, id, url))
  {
    var r := Expire(reg, id, url);
    forall u | u in r.urls
      ensures r.urls[u] in r.tasks && r.tasks[r.urls[u]].url == u
    {
      assert reg.urls[u] != id;
    }
  }

  /** `later` is `reg` with task `id` filed under `url` and possibly changed since, nothing else touched. */
  predicate Extends(reg: Registry, later: Registry, id: TaskId, url: string) {
    && later.tasks.Keys == reg.tasks.Keys + {id}
    && (forall other :: other in reg.tasks && other != id ==> other in later.tasks && later.tasks[other] == reg.tasks[other])
    && later.urls == reg.urls[url := id]
  }

  /** A step that touches only task `id` keeps `Extends`. */
  lemma ExtendsStep(reg: Registry, a: Registry, b: Registry, id: TaskId, url: string)
    requires Extends(reg, a, id, url)
    requires b.urls == a.urls && b.tasks.Keys == a.tasks.Keys
    requires forall other :: other in a.tasks && other != id ==> b.tasks[other] == a.tasks[other]
    ensures Extends(reg, b, id, url)
  {
  }

  /** Expiring a task that was freshly filed into `reg` gives back `reg`, whatever happened to the task meanwhile. */
  lemma ExpireRestores(reg: Registry, later: Registry, id: TaskId, url: string)
    requires id !in reg.tasks && url !in reg.urls
    requires Extends(reg, later, id, url)
    ensures Expire(later, id, url) == reg
  {
    var r := Expire(later, id, url);
    assert r.tasks == reg.tasks;
    assert r.urls == reg.urls;
  }

  /** Removal undoes registration: filing a fresh task and then expiring it gives back the registry. */
  lemma RegisterExpire(reg: Registry, id: TaskId, url: string, parameters: seq<string>)
    requires Valid(reg) && id !in reg.tasks && ByUrl(reg, url).None?
    ensures Expire(Register(reg, id, url, parameters), id, url) == reg
  {
    assert url !in reg.urls;
    var r := Expire(Register(reg, id, url, parameters), id, url);
    assert r.tasks == reg.tasks;
    assert r.urls == reg.urls;
  }
}
