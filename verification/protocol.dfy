/**
 The two ends of the socket protocol together: the request a client call sends, what the
 server's dispatch and a task's completion send back, and what the call then reports.
 */
module Protocol {
  import opened Wrappers
  import opened DataObjects
  import opened Registry
  import opened TaskFiles
  import opened Client
  import opened Dispatch
  import RetryLoop
  import Lifecycle

  /** No response in `noise` is one `call` would take for request `nonce`. */
  predicate Unrelated(noise: seq<Response>, call: Call, nonce: Nonce) {
    forall i :: 0 <= i < |noise| ==> noise[i].nonce != nonce || !Accepts(call, KindOf(noise[i]))
  }

  /**
   Every call that does not wait for a completion reports the server's first answer to its
   request, whatever unrelated responses arrived before it.
   */
  lemma CallAnswered(box: Box, session: nat, call: Call, nonce: Nonce, env: Env, noise: seq<Response>)
    requires !call.DownloadWithData? && !call.DownloadWithoutData?
    requires Unrelated(noise, call, nonce)
    ensures var out := Receive(box, session, RequestFor(call, nonce), env).0;
      Outcome(call, nonce, noise + out) == Some(out[0])
  {
    var out := Receive(box, session, RequestFor(call, nonce), env).0;
    assert Accepts(call, KindOf(out[0]));
    assert out == [out[0]] + out[1..];
    assert noise + out == noise + [out[0]] + out[1..];
    OutcomeIsFirstAccepted(call, nonce, noise, out[0], out[1..]);
  }

  /**
   Asking with data or without for a URL whose task has already completed gets the
   completion answer at once, right after the acknowledgement: success iff the task succeeded.
   */
  lemma CompletedTaskAnsweredAtOnce(box: Box, session: nat, call: Call, nonce: Nonce, env: Env, noise: seq<Response>)
    requires call.DownloadWithData? || call.DownloadWithoutData?
    requires Unrelated(noise, call, nonce)
    requires ByUrl(box.reg, call.url).Some? && ByUrl(box.reg, call.url).value.status.IsComplete()
    ensures var out := Receive(box, session, RequestFor(call, nonce), env).0;
      var t := ByUrl(box.reg, call.url).value;
      && |out| == 2
      && Outcome(call, nonce, noise + out) == Some(out[1])
      && (out[1].DownloadSuccess? <==> t.status == COMPLETE_SUCCESS)
  {
    var out := Receive(box, session, RequestFor(call, nonce), env).0;
    var before := noise + [out[0]];
    assert Unrelated(before, call, nonce);
    assert noise + out == before + [out[1]] + [];
    OutcomeIsFirstAccepted(call, nonce, before, out[1], []);
  }

  /**
   A call with data or without for a new URL is acknowledged as created and files the task
   with the caller as its first listener.
   */
  lemma NewTaskFiled(box: Box, session: nat, call: Call, nonce: Nonce, env: Env)
    requires call.DownloadWithData? || call.DownloadWithoutData?
    requires ByUrl(box.reg, call.url).None?
    ensures var (out, next) := Receive(box, session, RequestFor(call, nonce), env);
      var me := Listener(session, nonce, RequestFor(call, nonce).listenFor);
      && out == [Downloading(nonce, env.freshId, true, call.url, call.args)]
      && next.reg == Lifecycle.AddListeners(Register(box.reg, env.freshId, call.url, call.args), env.freshId, [me])
  {
    var me := Listener(session, nonce, RequestFor(call, nonce).listenFor);
    var filed := Register(box.reg, env.freshId, call.url, call.args);
    assert Lifecycle.AddListeners(filed, env.freshId, [me]) == Lifecycle.AddListeners(AddListener(filed, env.freshId, me), env.freshId, []);
  }

  /**
   When a task's loop ends, each of its listeners is answered in order, and the answer is a
   success iff the loop succeeded, with the output only for a listener that asked for data.
   */
  lemma ListenersAnsweredAtEnd(reg: Registry, id: TaskId, url: string, parameters: seq<string>,
                               loop: RetryLoop.LoopState, listeners: seq<Listener>, files: Files)
    requires id !in reg.tasks
    ensures var outputExists := OutputFor(files.holding, id).Some?;
      var life := Lifecycle.ServerTask(reg, id, url, parameters, loop, listeners, outputExists);
      var answers := Answers(life.fired, life.completed.tasks[id], files);
      && |answers| == |listeners|
      && forall i :: 0 <= i < |listeners| ==>
           && answers[i].session == listeners[i].session
           && answers[i].response.nonce == listeners[i].nonce
           && (answers[i].response.DownloadSuccess? || answers[i].response.DownloadFailure?)
           && (answers[i].response.DownloadSuccess? <==> loop.successful)
           && (answers[i].response.DownloadSuccess? && listeners[i].listenFor != LISTEN_WITH_DATA ==> answers[i].response.output == [])
  {
    var outputExists := OutputFor(files.holding, id).Some?;
    var life := Lifecycle.ServerTask(reg, id, url, parameters, loop, listeners, outputExists);
    Lifecycle.ServerTaskAnswersListeners(reg, id, url, parameters, loop, listeners, outputExists);
    Lifecycle.ServerTaskExtends(reg, id, url, parameters, loop, listeners, outputExists);
    assert life.fired == HooksOf(listeners);
    var t := life.completed.tasks[id];
    assert t.status == FinalStatus(loop.successful);
    AnswersListeners(listeners, t, files);
  }

  /**
   A call with data or without for a new URL starts a task with the caller as its first
   listener; when the task's loop ends the caller is answered first, and the call reports
   that answer: a success iff the loop succeeded, carrying the output only when data was asked for.
   */
  lemma NewTaskAnsweredOnCompletion(box: Box, session: nat, call: Call, nonce: Nonce, env: Env,
                                    loop: RetryLoop.LoopState, later: seq<Listener>)
    requires call.DownloadWithData? || call.DownloadWithoutData?
    requires env.freshId !in box.reg.tasks && ByUrl(box.reg, call.url).None?
    ensures var (out, next) := Receive(box, session, RequestFor(call, nonce), env);
      var id := env.freshId;
      var me := Listener(session, nonce, RequestFor(call, nonce).listenFor);
      var outputExists := OutputFor(box.files.holding, id).Some?;
      var life := Lifecycle.ServerTask(box.reg, id, call.url, call.args, loop, [me] + later, outputExists);
      var answers := Answers(life.fired, life.completed.tasks[id], box.files);
      && |answers| == 1 + |later|
      && answers[0].session == session
      && Outcome(call, nonce, [out[0], answers[0].response]) == Some(answers[0].response)
      && (answers[0].response.DownloadSuccess? <==> loop.successful)
      && (answers[0].response.DownloadSuccess? && call.DownloadWithoutData? ==> answers[0].response.output == [])
  {
    var out := Receive(box, session, RequestFor(call, nonce), env).0;
    var id := env.freshId;
    var me := Listener(session, nonce, RequestFor(call, nonce).listenFor);
    var ls := [me] + later;
    NewTaskFiled(box, session, call, nonce, env);
    ListenersAnsweredAtEnd(box.reg, id, call.url, call.args, loop, ls, box.files);
    var outputExists := OutputFor(box.files.holding, id).Some?;
    var life := Lifecycle.ServerTask(box.reg, id, call.url, call.args, loop, ls, outputExists);
    var answer := Answers(life.fired, life.completed.tasks[id], box.files)[0].response;
    assert ls[0] == me;
    ReportsAnswerAfterAck(call, nonce, out[0], answer);
  }

  /** A completion answer after the acknowledgement is what a call with data or without reports. */
  lemma ReportsAnswerAfterAck(call: Call, nonce: Nonce, ack: Response, answer: Response)
    requires call.DownloadWithData? || call.DownloadWithoutData?
    requires ack.Downloading? && answer.nonce == nonce && (answer.DownloadSuccess? || answer.DownloadFailure?)
    ensures Outcome(call, nonce, [ack, answer]) == Some(answer)
  {
    assert Unrelated([ack], call, nonce);
    OutcomeIsFirstAccepted(call, nonce, [ack], answer, []);
    assert [ack] + [answer] + [] == [ack, answer];
  }

  /**
   A call with data or without for a URL whose task has not completed is only acknowledged,
   and leaves a listener on the task; until the task's hooks run the call reports nothing.
   */
  lemma IncompleteTaskListened(box: Box, session: nat, call: Call, nonce: Nonce, env: Env)
    requires call.DownloadWithData? || call.DownloadWithoutData?
    requires Valid(box.reg) && ByUrl(box.reg, call.url).Some? && !ByUrl(box.reg, call.url).value.status.IsComplete()
    ensures var (out, next) := Receive(box, session, RequestFor(call, nonce), env);
      var t := ByUrl(box.reg, call.url).value;
      && out == [Downloading(nonce, t.taskID, false, t.url, t.parameters)]
      && Outcome(call, nonce, out) == None
      && next.reg == AddListener(box.reg, t.taskID, Listener(session, nonce, RequestFor(call, nonce).listenFor))
  {
    var out := Receive(box, session, RequestFor(call, nonce), env).0;
    assert KindOf(out[0]) == DownloadingKind;
  }

  /**
   A call with data or without that arrives while the task for its URL is SHUTTING_DOWN is
   only acknowledged: SHUTTING_DOWN is not complete, so a listener is appended instead of
   an answer, although the task's hooks have already run. The call stays suspended.
   */
  lemma ShutdownListenerStranded(reg: Registry, id: TaskId, url: string, parameters: seq<string>,
                                 loop: RetryLoop.LoopState, listeners: seq<Listener>, outputExists: bool,
                                 box: Box, session: nat, call: Call, nonce: Nonce, env: Env)
    requires Valid(reg) && id !in reg.tasks && ByUrl(reg, url).None?
    requires (call.DownloadWithData? || call.DownloadWithoutData?) && call.url == url
    requires box.reg == Lifecycle.ServerTask(reg, id, url, parameters, loop, listeners, outputExists).shuttingDown
    ensures var (out, next) := Receive(box, session, RequestFor(call, nonce), env);
      && out == [Downloading(nonce, id, false, url, parameters)]
      && Outcome(call, nonce, out) == None
      && next.reg == AddListener(box.reg, id, Listener(session, nonce, RequestFor(call, nonce).listenFor))
  {
    ShutdownTask(reg, id, url, parameters, loop, listeners, outputExists);
    IncompleteTaskListened(box, session, call, nonce, env);
  }

  /** In the SHUTTING_DOWN stage the lookup by URL finds the task, with its ID, URL and arguments. */
  lemma ShutdownTask(reg: Registry, id: TaskId, url: string, parameters: seq<string>,
                     loop: RetryLoop.LoopState, listeners: seq<Listener>, outputExists: bool)
    requires Valid(reg) && id !in reg.tasks && ByUrl(reg, url).None?
    ensures var shuttingDown := Lifecycle.ServerTask(reg, id, url, parameters, loop, listeners, outputExists).shuttingDown;
      && Valid(shuttingDown)
      && ByUrl(shuttingDown, url).Some?
      && var t := ByUrl(shuttingDown, url).value;
         t.taskID == id && t.url == url && t.parameters == parameters && t.status == SHUTTING_DOWN
  {
    var life := Lifecycle.ServerTask(reg, id, url, parameters, loop, listeners, outputExists);
    Lifecycle.ServerTaskValid(reg, id, url, parameters, loop, listeners, outputExists);
    Lifecycle.ServerTaskStages(reg, id, url, parameters, loop, listeners, outputExists);
    var filed := Register(reg, id, url, parameters);
    assert filed.tasks[id].parameters == parameters;
    assert life.running.tasks[id].parameters == parameters;
    assert life.completed.tasks[id].parameters == parameters;
    assert life.shuttingDown.urls[url] == id;
  }

  /** The stranded listener then disappears with its task: the removal gives back the registry before the task. */
  lemma ShutdownListenerDropped(reg: Registry, id: TaskId, url: string, parameters: seq<string>,
                                loop: RetryLoop.LoopState, listeners: seq<Listener>, outputExists: bool, late: Listener)
    requires Valid(reg) && id !in reg.tasks && ByUrl(reg, url).None?
    ensures var shuttingDown := Lifecycle.ServerTask(reg, id, url, parameters, loop, listeners, outputExists).shuttingDown;
      Expire(AddListener(shuttingDown, id, late), id, url) == reg
  {
    var shuttingDown := Lifecycle.ServerTask(reg, id, url, parameters, loop, listeners, outputExists).shuttingDown;
    Lifecycle.ServerTaskExtends(reg, id, url, parameters, loop, listeners, outputExists);
    ExtendsStep(reg, shuttingDown, AddListener(shuttingDown, id, late), id, url);
    assert url !in reg.urls;
    ExpireRestores(reg, AddListener(shuttingDown, id, late), id, url);
  }
}
