/**
 A task's whole life in the registry: filed under its ID and URL, the retry loop, the final
 status and the callbacks, the grace periods, and the removal. The server's two copies
 (`beginDownloadFor` and `YtdlBox.beginDownload`) share one shape; the older one has a
 single grace period and no SHUTTING_DOWN status, and an exception from its loop skips
 everything after the loop.
 */
module Lifecycle {
  import opened Wrappers
  import opened DataObjects
  import opened RetryLoop
  import opened Registry

  // ---------------------------------------------------------------------------------------
  // The ProcessStatus state machine

  /** The status writes the lifecycle makes, one pair at a time. */
  predicate Transition(from: ProcessStatus, to: ProcessStatus) {
    || (from == INITIALISING && to == RUNNING)
    || (from == RUNNING && to == RUNNING)
    || ((from == INITIALISING || from == RUNNING) && to.IsComplete())
    || (from.IsComplete() && to == SHUTTING_DOWN)
  }

  predicate Walk(trace: seq<ProcessStatus>) {
    forall i :: 0 <= i < |trace| - 1 ==> Transition(trace[i], trace[i + 1])
  }

  /** How far along a status is. */
  function Rank(s: ProcessStatus): nat {
    match s
    case INITIALISING => 0
    case RUNNING => 1
    case COMPLETE_SUCCESS => 2
    case COMPLETE_FAILURE => 2
    case SHUTTING_DOWN => 3
  }

  /**
   A task never goes back: every transition keeps or raises the rank, only RUNNING repeats, a
   complete status is left only for SHUTTING_DOWN, and SHUTTING_DOWN is never left.
   */
  lemma TransitionForward(from: ProcessStatus, to: ProcessStatus)
    requires Transition(from, to)
    ensures Rank(from) <= Rank(to)
    ensures Rank(from) == Rank(to) ==> from == RUNNING && to == RUNNING
    ensures from.IsComplete() ==> to == SHUTTING_DOWN
    ensures from != SHUTTING_DOWN
  {
  }

  /** Statuses along a walk never decrease in rank. */
  lemma {:induction false} WalkSorted(trace: seq<ProcessStatus>, i: nat, j: nat)
    requires Walk(trace) && i <= j < |trace|
    ensures Rank(trace[i]) <= Rank(trace[j])
    decreases j - i
  {
    if i < j {
      TransitionForward(trace[i], trace[i + 1]);
      WalkSorted(trace, i + 1, j);
    }
  }

  function Last<T>(s: seq<T>, default: T): T {
    if |s| == 0 then default else s[|s| - 1]
  }

  /** The status the server's copies write, in order. */
  function ServerTrace(loop: LoopState): seq<ProcessStatus> {
    [INITIALISING] + loop.statuses + [FinalStatus(loop.successful), SHUTTING_DOWN]
  }

  /** The status the older copy writes, in order; nothing follows an exception from its loop. */
  function LegacyTrace(loop: LegacyState): seq<ProcessStatus> {
    [INITIALISING] + loop.statuses + (if loop.aborted then [] else [FinalStatus(loop.successful)])
  }

  lemma {:induction false} RunningWalk(trace: seq<ProcessStatus>, tail: seq<ProcessStatus>)
    requires forall i :: 0 <= i < |trace| ==> trace[i] == RUNNING
    requires Walk(tail) && (|tail| > 0 ==> tail[0] == RUNNING || tail[0].IsComplete())
    ensures Walk([INITIALISING] + trace + tail)
  {
    var w := [INITIALISING] + trace + tail;
    forall i | 0 <= i < |w| - 1
      ensures Transition(w[i], w[i + 1])
    {
      if i > |trace| {
        assert w[i] == tail[i - 1 - |trace|] && w[i + 1] == tail[i - |trace|];
      }
    }
  }

  /** Every status sequence the server's loop can produce is a walk of the state machine ending in SHUTTING_DOWN. */
  lemma ServerTraceWalks(setup: Setup, attempts: seq<Attempt<Outcome>>)
    requires |attempts| == MaxAttempts
    ensures Walk(ServerTrace(Run(setup, attempts)))
    ensures Last(ServerTrace(Run(setup, attempts)), INITIALISING) == SHUTTING_DOWN
  {
    var loop := Run(setup, attempts);
    RunFromStatuses(setup, attempts, Initial);
    RunningWalk(loop.statuses, [FinalStatus(loop.successful), SHUTTING_DOWN]);
    assert ServerTrace(loop) == [INITIALISING] + loop.statuses + [FinalStatus(loop.successful), SHUTTING_DOWN];
  }

  /**
   The older loop's statuses are a walk too; it never reaches SHUTTING_DOWN, and it ends
   complete exactly when the loop was not aborted by an exception.
   */
  lemma LegacyTraceWalks(setup: Setup, attempts: seq<Attempt<LegacyOutcome>>)
    requires |attempts| == MaxAttempts
    ensures Walk(LegacyTrace(LegacyRun(setup, attempts)))
    ensures SHUTTING_DOWN !in LegacyTrace(LegacyRun(setup, attempts))
    ensures Last(LegacyTrace(LegacyRun(setup, attempts)), INITIALISING).IsComplete() <==> !LegacyRun(setup, attempts).aborted
  {
    var loop := LegacyRun(setup, attempts);
    LegacyRunFromStatuses(setup, attempts, LegacyInitial);
    var tail := if loop.aborted then [] else [FinalStatus(loop.successful)];
    RunningWalk(loop.statuses, tail);
    assert LegacyTrace(loop) == [INITIALISING] + loop.statuses + tail;
    var t := LegacyTrace(loop);
    assert forall i :: 0 <= i < |t| ==> t[i] != SHUTTING_DOWN by {
      forall i | 0 <= i < |t| ensures t[i] != SHUTTING_DOWN {
        if 0 < i <= |loop.statuses| {
          assert t[i] == loop.statuses[i - 1];
        }
      }
    }
  }

  // ---------------------------------------------------------------------------------------
  // The whole life of one task

  /** The listeners sessions append while the task is still running, in arrival order. */
  function AddListeners(reg: Registry, id: TaskId, ls: seq<Listener>): (r: Registry)
    ensures r.urls == reg.urls && r.tasks.Keys == reg.tasks.Keys
    ensures forall other :: other in reg.tasks && other != id ==> r.tasks[other] == reg.tasks[other]
    ensures id in reg.tasks ==> r.tasks[id] == reg.tasks[id].(onComplete := reg.tasks[id].onComplete + ls)
    decreases |ls|
  {
    if |ls| == 0 then reg
    else
      var r := AddListeners(AddListener(reg, id, ls[0]), id, ls[1..]);
      assert id in reg.tasks ==> reg.tasks[id].onComplete + ls == reg.tasks[id].onComplete + [ls[0]] + ls[1..];
      r
  }

  /** The registry after each stage of a server task, with the callbacks the loop's end ran. */
  datatype ServerLife = ServerLife(
    running: Registry,      // filed, the loop done, listeners appended
    completed: Registry,    // final status written
    shuttingDown: Registry, // after the first grace period
    removed: Registry,      // after the second
    fired: seq<Fired>)

  /** One server task whose loop ended as `loop`, with `listeners` appended while it ran. */
  function ServerTask(reg: Registry, id: TaskId, url: string, parameters: seq<string>, loop: LoopState,
                      listeners: seq<Listener>, outputExists: bool): ServerLife
  {
    var filed := Register(reg, id, url, parameters);
    var running := AddListeners(Progress(filed, id, loop.commandLine, Last(loop.statuses, INITIALISING)), id, listeners);
    var (completed, fired) := Complete(running, id, loop.successful, outputExists);
    var shuttingDown := SetStatus(completed, id, SHUTTING_DOWN);
    ServerLife(running, completed, shuttingDown, Expire(shuttingDown, id, url), fired)
  }

  lemma {:induction false} AddListenersValid(reg: Registry, id: TaskId, ls: seq<Listener>)
    requires Valid(reg)
    ensures Valid(AddListeners(reg, id, ls))
    decreases |ls|
  {
    if |ls| > 0 {
      AddListenerValid(reg, id, ls[0]);
      AddListenersValid(AddListener(reg, id, ls[0]), id, ls[1..]);
    }
  }

  /** A server task keeps the registry valid at every stage. */
  lemma ServerTaskValid(reg: Registry, id: TaskId, url: string, parameters: seq<string>, loop: LoopState,
                        listeners: seq<Listener>, outputExists: bool)
    requires Valid(reg) && id !in reg.tasks && ByUrl(reg, url).None?
    ensures var life := ServerTask(reg, id, url, parameters, loop, listeners, outputExists);
      Valid(life.running) && Valid(life.completed) && Valid(life.shuttingDown) && Valid(life.removed)
  {
    var filed := Register(reg, id, url, parameters);
    RegisterValid(reg, id, url, parameters);
    var progressed := Progress(filed, id, loop.commandLine, Last(loop.statuses, INITIALISING));
    ProgressValid(filed, id, loop.commandLine, Last(loop.statuses, INITIALISING));
    var running := AddListeners(progressed, id, listeners);
    AddListenersValid(progressed, id, listeners);
    var completed := SetStatus(running, id, FinalStatus(loop.successful));
    SetStatusValid(running, id, FinalStatus(loop.successful));
    var shuttingDown := SetStatus(completed, id, SHUTTING_DOWN);
    SetStatusValid(completed, id, SHUTTING_DOWN);
    ExpireValid(shuttingDown, id, url);
  }

  /**
   A running server task is filed under its URL with the last attempt's command line, then
   holds its final status, then SHUTTING_DOWN.
   */
  lemma ServerTaskStages(reg: Registry, id: TaskId, url: string, parameters: seq<string>, loop: LoopState,
                         listeners: seq<Listener>, outputExists: bool)
    requires Valid(reg) && id !in reg.tasks && ByUrl(reg, url).None?
    ensures var life := ServerTask(reg, id, url, parameters, loop, listeners, outputExists);
      && ByUrl(life.running, url).Some? && ByUrl(life.running, url).value.taskID == id
      && life.running.tasks[id].commandLine == loop.commandLine
      && life.completed.tasks[id].status == FinalStatus(loop.successful)
      && life.shuttingDown.tasks[id].status == SHUTTING_DOWN
  {
    var filed := Register(reg, id, url, parameters);
    var progressed := Progress(filed, id, loop.commandLine, Last(loop.statuses, INITIALISING));
    var running := AddListeners(progressed, id, listeners);
    assert running.urls[url] == id;
    assert running.tasks[id].taskID == id;
  }

  /** Up to its removal a server task touches nothing in the registry but its own entry and URL. */
  lemma ServerTaskExtends(reg: Registry, id: TaskId, url: string, parameters: seq<string>, loop: LoopState,
                          listeners: seq<Listener>, outputExists: bool)
    requires id !in reg.tasks
    ensures var life := ServerTask(reg, id, url, parameters, loop, listeners, outputExists);
      Extends(reg, life.running, id, url) && Extends(reg, life.completed, id, url)
      && Extends(reg, life.shuttingDown, id, url)
  {
    var filed := Register(reg, id, url, parameters);
    var progressed := Progress(filed, id, loop.commandLine, Last(loop.statuses, INITIALISING));
    var running := AddListeners(progressed, id, listeners);
    var completed := SetStatus(running, id, FinalStatus(loop.successful));
    var shuttingDown := SetStatus(completed, id, SHUTTING_DOWN);
    assert Extends(reg, filed, id, url);
    ExtendsStep(reg, filed, progressed, id, url);
    ExtendsStep(reg, progressed, running, id, url);
    ExtendsStep(reg, running, completed, id, url);
    ExtendsStep(reg, completed, shuttingDown, id, url);
  }

  /** The removal of a server task gives back the registry it started from. */
  lemma ServerTaskRemoved(reg: Registry, id: TaskId, url: string, parameters: seq<string>, loop: LoopState,
                          listeners: seq<Listener>, outputExists: bool)
    requires Valid(reg) && id !in reg.tasks && ByUrl(reg, url).None?
    ensures ServerTask(reg, id, url, parameters, loop, listeners, outputExists).removed == reg
  {
    var life := ServerTask(reg, id, url, parameters, loop, listeners, outputExists);
    ServerTaskExtends(reg, id, url, parameters, loop, listeners, outputExists);
    ExpireRestores(reg, life.shuttingDown, id, url);
  }

  /**
   The end of a server task's loop answers every listener appended while it ran exactly once,
   in arrival order; no success hook is ever registered, so nothing else runs.
   */
  lemma ServerTaskAnswersListeners(reg: Registry, id: TaskId, url: string, parameters: seq<string>, loop: LoopState,
                                   listeners: seq<Listener>, outputExists: bool)
    requires id !in reg.tasks
    ensures ServerTask(reg, id, url, parameters, loop, listeners, outputExists).fired
      == seq(|listeners|, i requires 0 <= i < |listeners| => CompletionHook(listeners[i]))
  {
    var life := ServerTask(reg, id, url, parameters, loop, listeners, outputExists);
    assert life.running.tasks[id].onComplete == listeners;
    assert life.running.tasks[id].onSuccess == [];
  }

  /** The server's lifecycle around its own retry loop. */
  lemma ServerTaskLife(reg: Registry, id: TaskId, setup: Setup, attempts: seq<Attempt<Outcome>>,
                       listeners: seq<Listener>, outputExists: bool)
    requires |attempts| == MaxAttempts
    requires Valid(reg) && id !in reg.tasks && ByUrl(reg, setup.url).None?
    ensures var loop := Run(setup, attempts);
      var life := ServerTask(reg, id, setup.url, setup.options, loop, listeners, outputExists);
      && 1 <= loop.attempts <= MaxAttempts
      && life.completed.tasks[id].status == (if loop.successful then COMPLETE_SUCCESS else COMPLETE_FAILURE)
      && life.running.tasks[id].commandLine == CommandFor(setup, attempts[loop.attempts - 1])
      && life.removed == reg
  {
    var loop := Run(setup, attempts);
    RunBounded(setup, attempts);
    ServerTaskStages(reg, id, setup.url, setup.options, loop, listeners, outputExists);
    ServerTaskRemoved(reg, id, setup.url, setup.options, loop, listeners, outputExists);
  }

  /**
   The older copy's two callbacks: a single `onSuccess` and a single `onComplete`, each
   possibly unset, written on the task while it runs.
   */
  datatype LegacyCallbacks = LegacyCallbacks(onSuccess: Option<nat>, onComplete: Option<Listener>)

  function OptionList<T>(o: Option<T>): (s: seq<T>)
    ensures o.None? ==> s == []
    ensures o.Some? ==> s == [o.value]
  {
    if o.Some? then [o.value] else []
  }

  /** The callbacks written on a filed task; no effect on a task that is not filed. */
  function WithCallbacks(reg: Registry, id: TaskId, cb: LegacyCallbacks): (r: Registry)
    ensures r.urls == reg.urls && r.tasks.Keys == reg.tasks.Keys
    ensures forall other :: other in reg.tasks && other != id ==> r.tasks[other] == reg.tasks[other]
    ensures id in reg.tasks ==>
      r.tasks[id] == reg.tasks[id].(onSuccess := OptionList(cb.onSuccess), onComplete := OptionList(cb.onComplete))
  {
    if id in reg.tasks then
      reg.(tasks := reg.tasks[id := reg.tasks[id].(onSuccess := OptionList(cb.onSuccess),
                                                 onComplete := OptionList(cb.onComplete))])
    else reg
  }

  /** The registry after each stage of a task of the older copy, with the callbacks the loop's end ran. */
  datatype LegacyLife = LegacyLife(
    running: Registry,    // filed, the loop done, the callbacks set
    completed: Registry,  // final status written, during the grace period
    final: Registry,      // after the grace period, or left as it was by an abort
    fired: seq<Fired>)

  /** One task of the older copy whose loop ended as `loop`; an abort skips everything after the loop. */
  function LegacyTask(reg: Registry, id: TaskId, url: string, parameters: seq<string>, loop: LegacyState,
                      cb: LegacyCallbacks, outputExists: bool): LegacyLife
  {
    var progressed := Progress(Register(reg, id, url, parameters), id, loop.commandLine,
                               Last(loop.statuses, INITIALISING));
    var running := WithCallbacks(progressed, id, cb);
    if loop.aborted then LegacyLife(running, running, running, [])
    else
      var (completed, fired) := Complete(running, id, loop.successful, outputExists);
      LegacyLife(running, completed, Expire(completed, id, url), fired)
  }

  lemma WithCallbacksValid(reg: Registry, id: TaskId, cb: LegacyCallbacks)
    requires Valid(reg)
    ensures Valid(WithCallbacks(reg, id, cb))
  {
  }

  /** While the older loop runs, its task is filed under its ID and URL with the loop's command line and last status. */
  lemma LegacyRunning(reg: Registry, id: TaskId, url: string, parameters: seq<string>, loop: LegacyState,
                      cb: LegacyCallbacks)
    requires Valid(reg) && id !in reg.tasks && ByUrl(reg, url).None?
    ensures var running := WithCallbacks(Progress(Register(reg, id, url, parameters), id, loop.commandLine,
                                                  Last(loop.statuses, INITIALISING)), id, cb);
      && Valid(running) && url in running.urls && running.urls[url] == id && id in running.tasks
      && running.tasks[id].taskID == id && running.tasks[id].commandLine == loop.commandLine
      && running.tasks[id].status == Last(loop.statuses, INITIALISING)
  {
    var filed := Register(reg, id, url, parameters);
    RegisterValid(reg, id, url, parameters);
    var progressed := Progress(filed, id, loop.commandLine, Last(loop.statuses, INITIALISING));
    ProgressValid(filed, id, loop.commandLine, Last(loop.statuses, INITIALISING));
    WithCallbacksValid(progressed, id, cb);
  }

  /**
   During the grace period a task of the older copy that ended normally holds its final
   status and is still found by its URL and by its ID.
   */
  lemma LegacyTaskCompleted(reg: Registry, id: TaskId, url: string, parameters: seq<string>, loop: LegacyState,
                            cb: LegacyCallbacks, outputExists: bool)
    requires Valid(reg) && id !in reg.tasks && ByUrl(reg, url).None?
    requires !loop.aborted
    ensures var life := LegacyTask(reg, id, url, parameters, loop, cb, outputExists);
      && Valid(life.completed)
      && ByUrl(life.completed, url).Some? && ByUrl(life.completed, url).value.taskID == id
      && id in life.completed.tasks && life.completed.tasks[id].status == FinalStatus(loop.successful)
      && life.completed.tasks[id].commandLine == loop.commandLine
  {
    var progressed := Progress(Register(reg, id, url, parameters), id, loop.commandLine,
                               Last(loop.statuses, INITIALISING));
    var running := WithCallbacks(progressed, id, cb);
    LegacyRunning(reg, id, url, parameters, loop, cb);
    SetStatusValid(running, id, FinalStatus(loop.successful));
  }

  /**
   The end of the older loop runs `onSuccess` only when the loop succeeded and an output file
   exists, then `onComplete`, each only when set; an aborted loop runs neither.
   */
  lemma LegacyTaskFiresCallbacks(reg: Registry, id: TaskId, url: string, parameters: seq<string>, loop: LegacyState,
                                 cb: LegacyCallbacks, outputExists: bool)
    requires id !in reg.tasks
    ensures LegacyTask(reg, id, url, parameters, loop, cb, outputExists).fired
      == if loop.aborted then []
         else (if loop.successful && outputExists && cb.onSuccess.Some? then [SuccessHook(cb.onSuccess.value)] else [])
              + (if cb.onComplete.Some? then [CompletionHook(cb.onComplete.value)] else [])
  {
    var progressed := Progress(Register(reg, id, url, parameters), id, loop.commandLine,
                               Last(loop.statuses, INITIALISING));
    var running := WithCallbacks(progressed, id, cb);
    assert running.tasks[id].onSuccess == OptionList(cb.onSuccess);
    assert running.tasks[id].onComplete == OptionList(cb.onComplete);
  }

  /**
   In the older copy a loop that ends normally leads, after one grace period, back to the
   registry the task started from.
   */
  lemma LegacyTaskReturns(reg: Registry, id: TaskId, url: string, parameters: seq<string>, loop: LegacyState,
                          cb: LegacyCallbacks, outputExists: bool)
    requires Valid(reg) && id !in reg.tasks && ByUrl(reg, url).None?
    requires !loop.aborted
    ensures LegacyTask(reg, id, url, parameters, loop, cb, outputExists).final == reg
  {
    var filed := Register(reg, id, url, parameters);
    var progressed := Progress(filed, id, loop.commandLine, Last(loop.statuses, INITIALISING));
    var running := WithCallbacks(progressed, id, cb);
    var completed := SetStatus(running, id, FinalStatus(loop.successful));
    assert Extends(reg, filed, id, url);
    ExtendsStep(reg, filed, progressed, id, url);
    ExtendsStep(reg, progressed, running, id, url);
    ExtendsStep(reg, running, completed, id, url);
    ExpireRestores(reg, completed, id, url);
  }

  /**
   A loop of the older copy aborted by an exception leaves the task filed for good with the
   last status the loop wrote, never complete, so its URL keeps answering with that task.
   */
  lemma LegacyTaskStranded(reg: Registry, id: TaskId, url: string, parameters: seq<string>, loop: LegacyState,
                           cb: LegacyCallbacks, outputExists: bool)
    requires Valid(reg) && id !in reg.tasks && ByUrl(reg, url).None?
    requires loop.aborted
    requires forall i :: 0 <= i < |loop.statuses| ==> loop.statuses[i] == RUNNING
    ensures var life := LegacyTask(reg, id, url, parameters, loop, cb, outputExists);
      && Valid(life.final)
      && ByUrl(life.final, url).Some? && ByUrl(life.final, url).value.taskID == id
      && !life.final.tasks[id].status.IsComplete()
  {
    LegacyRunning(reg, id, url, parameters, loop, cb);
  }

  /** The older lifecycle around its own retry loop: an exception in any attempt strands the task. */
  lemma LegacyTaskLife(reg: Registry, id: TaskId, setup: Setup, attempts: seq<Attempt<LegacyOutcome>>,
                       cb: LegacyCallbacks, outputExists: bool)
    requires |attempts| == MaxAttempts
    requires Valid(reg) && id !in reg.tasks && ByUrl(reg, setup.url).None?
    ensures var loop := LegacyRun(setup, attempts);
      var life := LegacyTask(reg, id, setup.url, setup.options, loop, cb, outputExists);
      && (!loop.aborted ==> life.final == reg)
      && (loop.aborted ==> ByUrl(life.final, setup.url).Some? && !life.final.tasks[id].status.IsComplete())
  {
    var loop := LegacyRun(setup, attempts);
    LegacyRunFromStatuses(setup, attempts, LegacyInitial);
    if loop.aborted {
      LegacyTaskStranded(reg, id, setup.url, setup.options, loop, cb, outputExists);
    } else {
      LegacyTaskReturns(reg, id, setup.url, setup.options, loop, cb, outputExists);
    }
  }
}
