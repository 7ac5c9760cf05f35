/**
 The per-task files: the log file `<logsDir>/<ID>.log`, the output template
 `<holdingDir>/<ID>.%(ext)s` handed to the download tool, and the lookup of the finished
 output in the holding directory's listing. The file system itself is an input.
 */
module TaskFiles {
  import opened Wrappers
  import opened DataObjects

  /** One entry of the holding directory's listing. */
  datatype HoldingFile = HoldingFile(name: string, absolutePath: string, bytes: Bytes, mimeType: string)

  /** What the file system holds: the log lines of every log that exists, and the holding directory's listing. */
  datatype Files = Files(logs: map<TaskId, seq<string>>, holding: seq<HoldingFile>)

  /** `logFileForTask`: `File(logsDir, "$taskID.log")`. */
  function LogPath(logsDir: string, id: TaskId): string {
    logsDir + "/" + id + ".log"
  }

  /** `outputTemplateForTask`. */
  function OutputTemplate(holdingDir: string, id: TaskId): string {
    holdingDir + "/" + id + ".%(ext)s"
  }

  /** Reads the task ID back out of a log path under `logsDir`. */
  function TaskOfLogPath(logsDir: string, path: string): Option<TaskId> {
    if |path| >= |logsDir| + 1 + 4 && path[..|logsDir| + 1] == logsDir + "/" && path[|path| - 4..] == ".log"
    then Some(path[|logsDir| + 1..|path| - 4])
    else None
  }

  /** The log path names its task: reading it back gives the ID, so two tasks never share a log. */
  lemma LogPathRoundTrip(logsDir: string, id: TaskId)
    ensures TaskOfLogPath(logsDir, LogPath(logsDir, id)) == Some(id)
  {
    var path := LogPath(logsDir, id);
    assert path[..|logsDir| + 1] == logsDir + "/";
    assert path[|path| - 4..] == ".log";
    assert path[|logsDir| + 1..|path| - 4] == id;
  }

  /** Index of the last occurrence of `c` in `s`. */
  function LastIndexOf(s: string, c: char): (i: nat)
    requires c in s
    ensures i < |s| && s[i] == c && c !in s[i + 1..]
  {
    if s[|s| - 1] == c then |s| - 1
    else
      assert c in s[..|s| - 1] by { var k :| 0 <= k < |s| && s[k] == c; assert s[..|s| - 1][k] == c; }
      var i := LastIndexOf(s[..|s| - 1], c);
      assert s[i + 1..] == s[..|s| - 1][i + 1..] + [s[|s| - 1]];
      i
  }

  /** `File.nameWithoutExtension`: the name up to its last dot. */
  function NameWithoutExtension(name: string): string {
    if '.' in name then name[..LastIndexOf(name, '.')] else name
  }

  /** `outputFileForTask`: the first listed file whose name without extension is the ID. */
  function OutputFor(holding: seq<HoldingFile>, id: TaskId): (r: Option<HoldingFile>)
    ensures r.Some? ==> r.value in holding && NameWithoutExtension(r.value.name) == id
    ensures r.None? ==> forall i :: 0 <= i < |holding| ==> NameWithoutExtension(holding[i].name) != id
    ensures r.Some? ==> exists k :: && 0 <= k < |holding| && holding[k] == r.value
                                    && forall i :: 0 <= i < k ==> NameWithoutExtension(holding[i].name) != id
  {
    if |holding| == 0 then None
    else if NameWithoutExtension(holding[0].name) == id then Some(holding[0])
    else
      var r := OutputFor(holding[1..], id);
      if r.Some? then
        ghost var k :| && 0 <= k < |holding[1..]| && holding[1..][k] == r.value
                       && forall i :: 0 <= i < k ==> NameWithoutExtension(holding[1..][i].name) != id;
        NoMatchBefore(holding, id, k);
        r
      else r
  }

  /** No file names the task before position `k + 1` if none does in the tail before `k` nor at the head. */
  lemma NoMatchBefore(holding: seq<HoldingFile>, id: TaskId, k: nat)
    requires k < |holding| - 1 && NameWithoutExtension(holding[0].name) != id
    requires forall i :: 0 <= i < k ==> NameWithoutExtension(holding[1..][i].name) != id
    ensures holding[k + 1] == holding[1..][k]
    ensures forall i :: 0 <= i < k + 1 ==> NameWithoutExtension(holding[i].name) != id
  {
    assert forall i :: 1 <= i < k + 1 ==> holding[i] == holding[1..][i - 1];
  }

  /** The first listed file that names the task is the one the lookup finds. */
  lemma OutputIsFirstMatch(holding: seq<HoldingFile>, id: TaskId, k: nat)
    requires k < |holding| && NameWithoutExtension(holding[k].name) == id
    requires forall i :: 0 <= i < k ==> NameWithoutExtension(holding[i].name) != id
    ensures OutputFor(holding, id) == Some(holding[k])
  {
    var r := OutputFor(holding, id);
    var m :| && 0 <= m < |holding| && holding[m] == r.value
             && forall i :: 0 <= i < m ==> NameWithoutExtension(holding[i].name) != id;
    assert m <= k;
  }

  /** A name made from the task ID, a dot and a dot-free extension has the ID as its name without extension. */
  lemma TemplateNameNamesTask(id: TaskId, ext: string)
    requires '.' !in ext
    ensures NameWithoutExtension(id + "." + ext) == id
  {
    var name := id + "." + ext;
    assert name[|id|] == '.';
    assert name[|id| + 1..] == ext;
    var j := LastIndexOf(name, '.');
    assert j == |id|;
    assert name[..|id|] == id;
  }

  /**
   The file the tool writes from the template (the ID, a dot, an extension without dots) makes
   the lookup find an output, and it is that very file unless an earlier listed file also names
   the task.
   */
  lemma TemplateOutputFound(holding: seq<HoldingFile>, id: TaskId, ext: string, k: nat)
    requires '.' !in ext && k < |holding| && holding[k].name == id + "." + ext
    ensures OutputFor(holding, id).Some?
    ensures (forall i :: 0 <= i < k ==> NameWithoutExtension(holding[i].name) != id) ==>
      OutputFor(holding, id) == Some(holding[k])
  {
    TemplateNameNamesTask(id, ext);
    if forall i :: 0 <= i < k ==> NameWithoutExtension(holding[i].name) != id {
      OutputIsFirstMatch(holding, id, k);
    }
  }

  /** The log's lines, when the log file exists. */
  function LogLines(files: Files, id: TaskId): Option<seq<string>> {
    if id in files.logs then Some(files.logs[id]) else None
  }

  /** `useLines { it.lastOrNull() }` on the log, when it exists. */
  function LogTail(files: Files, id: TaskId): (r: Option<string>)
    ensures r.Some? <==> id in files.logs && |files.logs[id]| > 0
    ensures r.Some? ==> r.value == files.logs[id][|files.logs[id]| - 1]
  {
    if id in files.logs && |files.logs[id]| > 0 then Some(files.logs[id][|files.logs[id]| - 1]) else None
  }

  /** The download tool writing one more line to a task's log, creating the file if need be. */
  function AppendLog(files: Files, id: TaskId, line: string): (r: Files)
    ensures r.holding == files.holding
    ensures id in r.logs
    ensures forall other :: other != id ==> (other in r.logs <==> other in files.logs)
    ensures forall other :: other != id && other in files.logs ==> r.logs[other] == files.logs[other]
  {
    files.(logs := files.logs[id := (if id in files.logs then files.logs[id] else []) + [line]])
  }

  /**
   The tail follows the log: after a line is written to a task's log it is that task's tail,
   and a line written to another task's log leaves the tail as it was.
   */
  lemma LogTailFollowsAppend(files: Files, id: TaskId, other: TaskId, line: string)
    ensures LogTail(AppendLog(files, id, line), id) == Some(line)
    ensures other != id ==> LogTail(AppendLog(files, other, line), id) == LogTail(files, id)
  {
    var lines := AppendLog(files, id, line).logs[id];
    assert lines[|lines| - 1] == line;
  }
}
