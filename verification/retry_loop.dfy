/**
 The bounded retry loop of a download task, as recursion over the attempts' outcomes. Every
 attempt borrows a proxy (or draws a source address), builds and runs the command line, and
 in its `finally` block returns the borrowed proxy, flagged as erroring when the log shows
 the remote host closing the connection. Two variants exist: the server's (a list of
 failure handlers, exceptions caught per attempt) and the older one (a single optional
 failure callback, no catch).
 */
module RetryLoop {
  import opened Wrappers
  import opened DataObjects
  import opened Rotator
  import opened CommandLine
  import Text

  const MaxAttempts: nat := 5

  /** The fixed inputs of one task's command lines. */
  datatype Setup = Setup(process: string, defaultArgs: seq<string>, options: seq<string>,
                         template: string, url: string)

  /**
   One attempt as the environment decides it: the pool's answer to the borrow (none also when
   no pool is configured), what the rotator's `receive` would give (none when there is no open
   rotator), how the attempt ended, and the log file afterwards (none when it does not exist).
   */
  datatype Attempt<O> = Attempt(proxy: Option<DownloadProxy>, drawn: Option<Address>, outcome: O,
                                log: Option<seq<string>>)

  datatype ProxyReturn = ProxyReturn(proxy: DownloadProxy, hadError: bool)

  /** The command line attempt `a` runs. */
  function CommandFor<O>(setup: Setup, a: Attempt<O>): seq<string> {
    Build(setup.process, setup.defaultArgs, setup.options, ChooseEgress(a.proxy, a.drawn),
          setup.template, setup.url)
  }

  // ---------------------------------------------------------------------------------------
  // Proxy-error scan

  /** A log line that blames the proxy: it mentions "ERROR" and a forcibly closed connection, in any case. */
  predicate ProxyErrorLine(line: string) {
    Text.ContainsIgnoreCase(line, "ERROR")
    && Text.ContainsIgnoreCase(line, "forcibly closed by the remote host")
  }

  /** The scan of the log, line by line, stopping at the first proxy-error line. */
  function ScanLines(lines: seq<string>): (hit: bool)
    ensures hit <==> exists i :: 0 <= i < |lines| && ProxyErrorLine(lines[i])
  {
    if |lines| == 0 then false
    else if ProxyErrorLine(lines[0]) then true
    else
      var hit := ScanLines(lines[1..]);
      assert forall i :: 1 <= i < |lines| ==> lines[i] == lines[1..][i - 1];
      hit
  }

  /** The error flag a borrowed proxy is returned with; a missing log counts as clean. */
  function ProxyErrorIn(log: Option<seq<string>>): (hadError: bool)
    ensures hadError <==> log.Some? && exists i :: 0 <= i < |log.value| && ProxyErrorLine(log.value[i])
  {
    log.Some? && ScanLines(log.value)
  }

  /** What an attempt's `finally` block hands back to the pool: its proxy, if it borrowed one. */
  function ReturnOf<O>(a: Attempt<O>): seq<ProxyReturn> {
    if a.proxy.Some? then [ProxyReturn(a.proxy.value, ProxyErrorIn(a.log))] else []
  }

  /** The returns a run of attempts makes: one per borrowed proxy, in attempt order. */
  function ExpectedReturns<O>(attempts: seq<Attempt<O>>): seq<ProxyReturn> {
    if |attempts| == 0 then [] else ReturnOf(attempts[0]) + ExpectedReturns(attempts[1..])
  }

  lemma ExpectedReturnsAppend<O>(a: seq<Attempt<O>>, b: seq<Attempt<O>>)
    ensures ExpectedReturns(a + b) == ExpectedReturns(a) + ExpectedReturns(b)
  {
    if |a| == 0 {
      assert a + b == b;
    } else {
      assert (a + b)[0] == a[0];
      assert (a + b)[1..] == a[1..] + b;
      ExpectedReturnsAppend(a[1..], b);
    }
  }

  /** The returns of the first `k` attempts: the first attempt's, then those of the next `k - 1`. */
  lemma ExpectedReturnsCons<O>(attempts: seq<Attempt<O>>, k: nat)
    requires 1 <= k <= |attempts|
    ensures ExpectedReturns(attempts[..k]) == ReturnOf(attempts[0]) + ExpectedReturns(attempts[1..][..k - 1])
  {
    assert attempts[..k][0] == attempts[0];
    assert attempts[..k][1..] == attempts[1..][..k - 1];
  }

  // ---------------------------------------------------------------------------------------
  // Server loop (`beginDownloadFor` and `YtdlBox.beginDownload`)

  /**
   How an attempt ended: the process exited with `code` (and `verdicts` are what the failure
   handlers would answer, in order), or an exception ended it (`started`: after the process
   was launched and the status set to RUNNING).
   */
  datatype Outcome = Exited(code: int, verdicts: seq<bool>) | Threw(started: bool)

  /**
   `onFailure.fold(true) { acc, func -> acc && func(…) }`: whether to retry, and how many
   handlers were called. `&&` short-circuits, so no handler after the first `false` runs.
   */
  function FoldHandlers(verdicts: seq<bool>): (r: (bool, nat))
    ensures r.0 <==> forall i :: 0 <= i < |verdicts| ==> verdicts[i]
    ensures r.0 ==> r.1 == |verdicts|
    ensures !r.0 ==> 1 <= r.1 <= |verdicts| && !verdicts[r.1 - 1]
    ensures forall i :: 0 <= i < r.1 - 1 ==> verdicts[i]
  {
    if |verdicts| == 0 then (true, 0)
    else if !verdicts[0] then (false, 1)
    else
      var r := FoldHandlers(verdicts[1..]);
      assert forall i :: 1 <= i < |verdicts| ==> verdicts[i] == verdicts[1..][i - 1];
      (r.0, r.1 + 1)
  }

  /** The loop's variables after some attempts. */
  datatype LoopState = LoopState(
    successful: bool,
    attempts: nat,
    commandLine: seq<string>,
    statuses: seq<ProcessStatus>,
    proxyReturns: seq<ProxyReturn>,
    handlerCalls: nat)

  const Initial := LoopState(false, 0, [], [], [], 0)

  /** An attempt that leaves the loop: an exit code at most 0, or a failure handler answering false. */
  predicate Stops(a: Attempt<Outcome>) {
    a.outcome.Exited? && (a.outcome.code <= 0 || !FoldHandlers(a.outcome.verdicts).0)
  }

  /** One pass of the loop body; the flag says whether it breaks out. */
  function Step(setup: Setup, a: Attempt<Outcome>, st: LoopState): (r: (LoopState, bool))
    ensures r.1 <==> Stops(a)
    ensures r.0.proxyReturns == st.proxyReturns + ReturnOf(a)
  {
    var base := st.(attempts := st.attempts + 1, commandLine := CommandFor(setup, a),
                    proxyReturns := st.proxyReturns + ReturnOf(a));
    match a.outcome
    case Threw(started) =>
      (base.(statuses := st.statuses + (if started then [RUNNING] else [])), false)
    case Exited(code, verdicts) =>
      var ran := base.(statuses := st.statuses + [RUNNING], successful := code <= 0);
      if code <= 0 then (ran, true)
      else
        var fold := FoldHandlers(verdicts);
        (ran.(handlerCalls := st.handlerCalls + fold.1), !fold.0)
  }

  function RunFrom(setup: Setup, attempts: seq<Attempt<Outcome>>, st: LoopState): LoopState
    decreases |attempts|
  {
    if |attempts| == 0 then st
    else
      var (next, stop) := Step(setup, attempts[0], st);
      if stop then next else RunFrom(setup, attempts[1..], next)
  }

  /** `for (i in 0 until 5)`: the environment supplies the outcome of each of the five attempts. */
  function Run(setup: Setup, attempts: seq<Attempt<Outcome>>): LoopState
    requires |attempts| == MaxAttempts
  {
    RunFrom(setup, attempts, Initial)
  }

  /** Index of the first attempt that leaves the loop, or the number of attempts. */
  function FirstStop(attempts: seq<Attempt<Outcome>>): (k: nat)
    ensures k <= |attempts|
    ensures forall i :: 0 <= i < k ==> !Stops(attempts[i])
    ensures k < |attempts| ==> Stops(attempts[k])
  {
    if |attempts| == 0 then 0
    else if Stops(attempts[0]) then 0
    else
      var k := FirstStop(attempts[1..]);
      assert forall i :: 1 <= i < |attempts| ==> attempts[i] == attempts[1..][i - 1];
      k + 1
  }

  /** How many attempts run: up to and including the first that leaves the loop. */
  function AttemptsRun(attempts: seq<Attempt<Outcome>>): nat {
    if FirstStop(attempts) < |attempts| then FirstStop(attempts) + 1 else |attempts|
  }

  /** The loop runs attempts up to and including the first that leaves it; exceptions go on to the next. */
  lemma {:induction false} RunFromAttempts(setup: Setup, attempts: seq<Attempt<Outcome>>, st: LoopState)
    ensures RunFrom(setup, attempts, st).attempts == st.attempts + AttemptsRun(attempts)
    decreases |attempts|
  {
    if |attempts| > 0 && !Stops(attempts[0]) {
      RunFromAttempts(setup, attempts[1..], Step(setup, attempts[0], st).0);
    }
  }

  /** The loop succeeds iff the attempt that stopped it exited with a code at most 0. */
  lemma {:induction false} RunFromSuccess(setup: Setup, attempts: seq<Attempt<Outcome>>, st: LoopState)
    requires !st.successful
    ensures RunFrom(setup, attempts, st).successful <==>
      FirstStop(attempts) < |attempts| && attempts[FirstStop(attempts)].outcome.code <= 0
    decreases |attempts|
  {
    if |attempts| > 0 && !Stops(attempts[0]) {
      RunFromSuccess(setup, attempts[1..], Step(setup, attempts[0], st).0);
    }
  }

  /** One attempt fewer: a stopping first attempt is the only one run, otherwise one more than the rest run. */
  lemma AttemptsRunStep(attempts: seq<Attempt<Outcome>>)
    requires |attempts| > 0
    ensures Stops(attempts[0]) ==> AttemptsRun(attempts) == 1
    ensures !Stops(attempts[0]) ==> AttemptsRun(attempts) == AttemptsRun(attempts[1..]) + 1
  {
  }

  lemma SeqAssoc<T>(a: seq<T>, b: seq<T>, c: seq<T>)
    ensures (a + b) + c == a + (b + c)
  {
  }

  /**
   One turn of the loop: the first attempt adds its proxy return; if it stops the loop the run
   ends there, otherwise the rest of the attempts run from the state it leaves.
   */
  lemma RunFromCons(setup: Setup, attempts: seq<Attempt<Outcome>>, st: LoopState) returns (next: LoopState)
    requires |attempts| > 0
    ensures next.proxyReturns == st.proxyReturns + ReturnOf(attempts[0])
    ensures Stops(attempts[0]) ==> RunFrom(setup, attempts, st) == next
    ensures !Stops(attempts[0]) ==> RunFrom(setup, attempts, st) == RunFrom(setup, attempts[1..], next)
  {
    next := Step(setup, attempts[0], st).0;
  }

  /** Every borrowed proxy is returned once, in its own attempt, flagged by the scan of that attempt's log. */
  lemma {:induction false} RunFromReturns(setup: Setup, attempts: seq<Attempt<Outcome>>, st: LoopState)
    ensures RunFrom(setup, attempts, st).proxyReturns
      == st.proxyReturns + ExpectedReturns(attempts[..AttemptsRun(attempts)])
    decreases |attempts|
  {
    if |attempts| > 0 {
      var n := AttemptsRun(attempts);
      AttemptsRunStep(attempts);
      ExpectedReturnsCons(attempts, n);
      var next := RunFromCons(setup, attempts, st);
      if !Stops(attempts[0]) {
        var rest := attempts[1..];
        RunFromReturns(setup, rest, next);
        SeqAssoc(st.proxyReturns, ReturnOf(attempts[0]), ExpectedReturns(rest[..n - 1]));
      } else {
        assert attempts[1..][..0] == [];
      }
    }
  }

  /** The command line left behind is the one the last attempt ran. */
  lemma {:induction false} RunFromCommandLine(setup: Setup, attempts: seq<Attempt<Outcome>>, st: LoopState)
    requires |attempts| > 0
    ensures RunFrom(setup, attempts, st).commandLine == CommandFor(setup, attempts[AttemptsRun(attempts) - 1])
    decreases |attempts|
  {
    AttemptsRunStep(attempts);
    if !Stops(attempts[0]) && |attempts| > 1 {
      var rest := attempts[1..];
      RunFromCommandLine(setup, rest, Step(setup, attempts[0], st).0);
      assert attempts[AttemptsRun(attempts) - 1] == rest[AttemptsRun(rest) - 1];
    }
  }

  /** The only status the loop itself writes is RUNNING, once per attempt that got its process started. */
  lemma {:induction false} RunFromStatuses(setup: Setup, attempts: seq<Attempt<Outcome>>, st: LoopState)
    requires forall i :: 0 <= i < |st.statuses| ==> st.statuses[i] == RUNNING
    ensures forall i :: 0 <= i < |RunFrom(setup, attempts, st).statuses| ==> RunFrom(setup, attempts, st).statuses[i] == RUNNING
    decreases |attempts|
  {
    if |attempts| > 0 && !Stops(attempts[0]) {
      RunFromStatuses(setup, attempts[1..], Step(setup, attempts[0], st).0);
    }
  }

  /**
   At most five attempts run, each returning the proxy it borrowed, and the command line left
   behind is the last one run.
   */
  lemma RunBounded(setup: Setup, attempts: seq<Attempt<Outcome>>)
    requires |attempts| == MaxAttempts
    ensures 1 <= Run(setup, attempts).attempts <= MaxAttempts
    ensures Run(setup, attempts).attempts == AttemptsRun(attempts)
    ensures Run(setup, attempts).proxyReturns == ExpectedReturns(attempts[..Run(setup, attempts).attempts])
    ensures Run(setup, attempts).commandLine == CommandFor(setup, attempts[Run(setup, attempts).attempts - 1])
  {
    RunFromAttempts(setup, attempts, Initial);
    RunFromReturns(setup, attempts, Initial);
    RunFromCommandLine(setup, attempts, Initial);
  }

  /**
   The loop succeeds exactly when some attempt exits with a code at most 0 and no attempt
   before it left the loop: the first such exit ends the loop with success, and a handler's
   veto ends it with failure.
   */
  lemma RunSucceeds(setup: Setup, attempts: seq<Attempt<Outcome>>)
    requires |attempts| == MaxAttempts
    ensures Run(setup, attempts).successful <==>
      exists i :: 0 <= i < MaxAttempts && attempts[i].outcome.Exited? && attempts[i].outcome.code <= 0
        && forall j :: 0 <= j < i ==> !Stops(attempts[j])
  {
    RunFromSuccess(setup, attempts, Initial);
    var k := FirstStop(attempts);
    if Run(setup, attempts).successful {
      assert attempts[k].outcome.Exited? && attempts[k].outcome.code <= 0;
    }
    if exists i :: 0 <= i < MaxAttempts && attempts[i].outcome.Exited? && attempts[i].outcome.code <= 0
         && forall j :: 0 <= j < i ==> !Stops(attempts[j]) {
      var i :| 0 <= i < MaxAttempts && attempts[i].outcome.Exited? && attempts[i].outcome.code <= 0
         && forall j :: 0 <= j < i ==> !Stops(attempts[j]);
      assert Stops(attempts[i]);
      assert k == i;
    }
  }

  /** Five failures that every handler agrees to retry use up the whole budget and fail. */
  lemma RetryBudgetExhausted(setup: Setup, attempts: seq<Attempt<Outcome>>)
    requires |attempts| == MaxAttempts
    requires forall i :: 0 <= i < MaxAttempts ==>
      attempts[i].outcome.Threw? || (attempts[i].outcome.code > 0 && forall j :: 0 <= j < |attempts[i].outcome.verdicts| ==> attempts[i].outcome.verdicts[j])
    ensures Run(setup, attempts).attempts == MaxAttempts
    ensures !Run(setup, attempts).successful
  {
    RunFromAttempts(setup, attempts, Initial);
    RunFromSuccess(setup, attempts, Initial);
  }

  /** A failed first attempt whose handlers refuse a retry is the only attempt. */
  lemma VetoEndsAfterFirstAttempt(setup: Setup, attempts: seq<Attempt<Outcome>>)
    requires |attempts| == MaxAttempts
    requires attempts[0].outcome.Exited? && attempts[0].outcome.code > 0
    requires exists j :: 0 <= j < |attempts[0].outcome.verdicts| && !attempts[0].outcome.verdicts[j]
    ensures Run(setup, attempts).attempts == 1 && !Run(setup, attempts).successful
  {
    RunFromAttempts(setup, attempts, Initial);
    RunFromSuccess(setup, attempts, Initial);
  }

  // ---------------------------------------------------------------------------------------
  // Older loop (src/…/ytdlbox.kt)

  /**
   Where an exception left an attempt of the older loop: in the source-address draw, before the
   command line is written; in launching the process, after it is written; or after the launch,
   once the status is RUNNING.
   */
  datatype ThrowPoint = AtSourceDraw | AtLaunch | AfterLaunch

  /**
   How an attempt of the older loop ended: the process exited with `code` (and `verdict` is the
   failure callback's answer, none when no callback is set), or an exception escaped.
   */
  datatype LegacyOutcome = LegacyExited(code: int, verdict: Option<bool>) | LegacyThrew(point: ThrowPoint)

  datatype LegacyState = LegacyState(
    successful: bool,
    attempts: nat,
    commandLine: seq<string>,
    statuses: seq<ProcessStatus>,
    proxyReturns: seq<ProxyReturn>,
    aborted: bool)

  const LegacyInitial := LegacyState(false, 0, [], [], [], false)

  /** An attempt that ends the older loop: success, a callback answering false, or an exception. */
  predicate LegacyStops(a: Attempt<LegacyOutcome>) {
    match a.outcome
    case LegacyExited(code, verdict) => code <= 0 || verdict == Some(false)
    case LegacyThrew(_) => true
  }

  /** An attempt that got as far as writing its command line: all but a throw in the source-address draw. */
  predicate WritesCommandLine(a: Attempt<LegacyOutcome>) {
    a.outcome != LegacyThrew(AtSourceDraw)
  }

  function LegacyStep(setup: Setup, a: Attempt<LegacyOutcome>, st: LegacyState): (r: (LegacyState, bool))
    ensures r.1 <==> LegacyStops(a)
    ensures r.0.proxyReturns == st.proxyReturns + ReturnOf(a)
    ensures !WritesCommandLine(a) ==> r.0.commandLine == st.commandLine
  {
    var base := st.(attempts := st.attempts + 1,
                    commandLine := if WritesCommandLine(a) then CommandFor(setup, a) else st.commandLine,
                    proxyReturns := st.proxyReturns + ReturnOf(a));
    match a.outcome
    case LegacyThrew(point) =>
      (base.(statuses := st.statuses + (if point == AfterLaunch then [RUNNING] else []), aborted := true), true)
    case LegacyExited(code, verdict) =>
      var ran := base.(statuses := st.statuses + [RUNNING], successful := code <= 0);
      (ran, code <= 0 || verdict == Some(false))
  }

  function LegacyRunFrom(setup: Setup, attempts: seq<Attempt<LegacyOutcome>>, st: LegacyState): LegacyState
    decreases |attempts|
  {
    if |attempts| == 0 then st
    else
      var (next, stop) := LegacyStep(setup, attempts[0], st);
      if stop then next else LegacyRunFrom(setup, attempts[1..], next)
  }

  function LegacyRun(setup: Setup, attempts: seq<Attempt<LegacyOutcome>>): LegacyState
    requires |attempts| == MaxAttempts
  {
    LegacyRunFrom(setup, attempts, LegacyInitial)
  }

  function LegacyFirstStop(attempts: seq<Attempt<LegacyOutcome>>): (k: nat)
    ensures k <= |attempts|
    ensures forall i :: 0 <= i < k ==> !LegacyStops(attempts[i])
    ensures k < |attempts| ==> LegacyStops(attempts[k])
  {
    if |attempts| == 0 then 0
    else if LegacyStops(attempts[0]) then 0
    else
      var k := LegacyFirstStop(attempts[1..]);
      assert forall i :: 1 <= i < |attempts| ==> attempts[i] == attempts[1..][i - 1];
      k + 1
  }

  function LegacyAttemptsRun(attempts: seq<Attempt<LegacyOutcome>>): nat {
    if LegacyFirstStop(attempts) < |attempts| then LegacyFirstStop(attempts) + 1 else |attempts|
  }

  /** The older loop runs attempts up to and including the first success, veto or exception. */
  lemma {:induction false} LegacyRunFromAttempts(setup: Setup, attempts: seq<Attempt<LegacyOutcome>>, st: LegacyState)
    ensures LegacyRunFrom(setup, attempts, st).attempts == st.attempts + LegacyAttemptsRun(attempts)
    decreases |attempts|
  {
    if |attempts| > 0 && !LegacyStops(attempts[0]) {
      LegacyRunFromAttempts(setup, attempts[1..], LegacyStep(setup, attempts[0], st).0);
    }
  }

  /**
   An exception still returns the borrowed proxy (the `finally` runs) but then leaves the
   older loop, marked aborted; it succeeds iff the attempt that stopped it exited with a code
   at most 0.
   */
  lemma {:induction false} LegacyRunFromOutcome(setup: Setup, attempts: seq<Attempt<LegacyOutcome>>, st: LegacyState)
    requires !st.successful && !st.aborted
    ensures var r := LegacyRunFrom(setup, attempts, st);
      var k := LegacyFirstStop(attempts);
      && (r.aborted <==> k < |attempts| && attempts[k].outcome.LegacyThrew?)
      && (r.successful <==> k < |attempts| && attempts[k].outcome.LegacyExited? && attempts[k].outcome.code <= 0)
    decreases |attempts|
  {
    if |attempts| > 0 && !LegacyStops(attempts[0]) {
      LegacyRunFromOutcome(setup, attempts[1..], LegacyStep(setup, attempts[0], st).0);
    }
  }

  lemma LegacyAttemptsRunStep(attempts: seq<Attempt<LegacyOutcome>>)
    requires |attempts| > 0
    ensures LegacyStops(attempts[0]) ==> LegacyAttemptsRun(attempts) == 1
    ensures !LegacyStops(attempts[0]) ==> LegacyAttemptsRun(attempts) == LegacyAttemptsRun(attempts[1..]) + 1
  {
  }

  /**
   One turn of the older loop: the first attempt writes its command line unless it threw in the
   draw; if it stops the loop the run ends there, otherwise the rest run from the state it leaves.
   */
  lemma LegacyRunFromCons(setup: Setup, attempts: seq<Attempt<LegacyOutcome>>, st: LegacyState) returns (next: LegacyState)
    requires |attempts| > 0
    ensures WritesCommandLine(attempts[0]) ==> next.commandLine == CommandFor(setup, attempts[0])
    ensures !WritesCommandLine(attempts[0]) ==> next.commandLine == st.commandLine
    ensures LegacyStops(attempts[0]) ==> LegacyRunFrom(setup, attempts, st) == next
    ensures !LegacyStops(attempts[0]) ==> LegacyRunFrom(setup, attempts, st) == LegacyRunFrom(setup, attempts[1..], next)
  {
    next := LegacyStep(setup, attempts[0], st).0;
  }

  /**
   The older loop leaves the command line of its last attempt, unless that attempt threw in the
   source-address draw: then the one before it stays, or the starting one after a single attempt.
   Every earlier attempt exited, so it did write its own.
   */
  lemma {:induction false} LegacyRunFromCommandLine(setup: Setup, attempts: seq<Attempt<LegacyOutcome>>, st: LegacyState)
    requires |attempts| > 0
    ensures var n := LegacyAttemptsRun(attempts);
      var r := LegacyRunFrom(setup, attempts, st);
      && (WritesCommandLine(attempts[n - 1]) ==> r.commandLine == CommandFor(setup, attempts[n - 1]))
      && (!WritesCommandLine(attempts[n - 1]) && n == 1 ==> r.commandLine == st.commandLine)
      && (!WritesCommandLine(attempts[n - 1]) && n > 1 ==> r.commandLine == CommandFor(setup, attempts[n - 2]))
    decreases |attempts|
  {
    LegacyAttemptsRunStep(attempts);
    var next := LegacyRunFromCons(setup, attempts, st);
    if !LegacyStops(attempts[0]) {
      if |attempts| == 1 {
        assert LegacyFirstStop(attempts) == 1;
      } else {
        LegacyRunFromCommandLine(setup, attempts[1..], next);
        var n := LegacyAttemptsRun(attempts);
        assert attempts[1..][n - 2] == attempts[n - 1];
        if n > 2 {
          assert attempts[1..][n - 3] == attempts[n - 2];
        }
      }
    }
  }

  /** Every proxy the older loop borrows is returned once, in its own attempt. */
  lemma {:induction false} LegacyRunFromReturns(setup: Setup, attempts: seq<Attempt<LegacyOutcome>>, st: LegacyState)
    ensures LegacyRunFrom(setup, attempts, st).proxyReturns
      == st.proxyReturns + ExpectedReturns(attempts[..LegacyAttemptsRun(attempts)])
    decreases |attempts|
  {
    if |attempts| > 0 {
      LegacyAttemptsRunStep(attempts);
      ExpectedReturnsCons(attempts, LegacyAttemptsRun(attempts));
      if !LegacyStops(attempts[0]) {
        LegacyRunFromReturns(setup, attempts[1..], LegacyStep(setup, attempts[0], st).0);
      }
    }
  }

  lemma {:induction false} LegacyRunFromStatuses(setup: Setup, attempts: seq<Attempt<LegacyOutcome>>, st: LegacyState)
    requires forall i :: 0 <= i < |st.statuses| ==> st.statuses[i] == RUNNING
    ensures forall i :: 0 <= i < |LegacyRunFrom(setup, attempts, st).statuses| ==>
      LegacyRunFrom(setup, attempts, st).statuses[i] == RUNNING
    decreases |attempts|
  {
    if |attempts| > 0 && !LegacyStops(attempts[0]) {
      LegacyRunFromStatuses(setup, attempts[1..], LegacyStep(setup, attempts[0], st).0);
    }
  }

  /** The older loop also makes at most five attempts, and an unset callback always means retry. */
  lemma LegacyRunBounded(setup: Setup, attempts: seq<Attempt<LegacyOutcome>>)
    requires |attempts| == MaxAttempts
    ensures 1 <= LegacyRun(setup, attempts).attempts <= MaxAttempts
    ensures (forall i :: 0 <= i < MaxAttempts ==> attempts[i].outcome == LegacyExited(1, None)) ==>
      LegacyRun(setup, attempts).attempts == MaxAttempts && !LegacyRun(setup, attempts).successful
  {
    LegacyRunFromAttempts(setup, attempts, LegacyInitial);
    LegacyRunFromOutcome(setup, attempts, LegacyInitial);
  }
}
