/**
 Completion actions: the rclone upload a download request may ask for, its configuration
 (the optional `rclone` section of the server configuration) and the command line it runs.
 Running the command is not part of this model; the command line is the result.
 */
module CompletionActions {
  import opened Wrappers
  import opened DataObjects
  import Text

  /** The `rclone` configuration section: each property, when it is set. */
  datatype RCloneSection = RCloneSection(rclone: Option<string>, endpoint: Option<string>, basePath: Option<string>)

  /** `CompletionActionType.UploadWithRClone`: what the box reads from the section. */
  datatype RCloneConfig = RCloneConfig(rcloneProcess: Option<string>, endpoint: Option<string>, basePath: Option<string>)

  /** The rclone executable when the section names none: `rclone.exe` on an OS whose name mentions "win". */
  function DefaultRClone(osName: string): string {
    if Text.ContainsIgnoreCase(osName, "win") then "rclone.exe" else "rclone"
  }

  /**
   Building the configuration: nothing at all without the section; with it, the configured
   executable or the OS default, and the endpoint and base path as configured.
   */
  function BuildRClone(section: Option<RCloneSection>, osName: string): (c: RCloneConfig)
    ensures section.None? ==> c == RCloneConfig(None, None, None)
    ensures section.Some? ==>
      (c.rcloneProcess.Some? && c.endpoint == section.value.endpoint && c.basePath == section.value.basePath)
    ensures section.Some? && section.value.rclone.Some? ==> c.rcloneProcess == section.value.rclone
    ensures section.Some? && section.value.rclone.None? ==>
      (c.rcloneProcess == Some("rclone.exe") <==> Text.ContainsIgnoreCase(osName, "win"))
      && (c.rcloneProcess == Some("rclone") <==> !Text.ContainsIgnoreCase(osName, "win"))
  {
    match section
    case None => RCloneConfig(None, None, None)
    case Some(s) =>
      RCloneConfig(if s.rclone.Some? then s.rclone else Some(DefaultRClone(osName)), s.endpoint, s.basePath)
  }

  /** `isAvailable`: an endpoint is configured. */
  predicate IsAvailable(c: RCloneConfig) {
    c.endpoint.Some?
  }

  /** `CompletionActionType.invoke`: the built configuration, kept only when it is available. */
  function Invoke(c: RCloneConfig): (r: Option<RCloneConfig>)
    ensures r.Some? <==> c.endpoint.Some?
    ensures r.Some? ==> r.value == c
  {
    if IsAvailable(c) then Some(c) else None
  }

  /** `CompletionAction.UploadWithRClone`: upload the output to `path` under the endpoint. */
  datatype Action = RCloneUpload(path: string)

  /** `parseRequests`: one upload action per upload request, with its path, in order. */
  function ParseRequests(requests: seq<CompletionRequest>): (actions: seq<Action>)
    ensures |actions| == |requests|
    ensures forall i :: 0 <= i < |requests| ==> actions[i] == RCloneUpload(requests[i].path)
  {
    if |requests| == 0 then []
    else [RCloneUpload(requests[0].path)] + ParseRequests(requests[1..])
  }

  /** The rclone destination: the endpoint, a colon, the base path and a slash when there is one, the path. */
  function Destination(endpoint: string, basePath: Option<string>, path: string): string {
    endpoint + ":" + (if basePath.Some? then basePath.value + "/" else "") + path
  }

  /** How rclone reads a destination: the remote name up to the first colon, and the path after it. */
  function SplitRemote(d: string): Option<(string, string)> {
    if ':' in d then
      var i := Text.IndexOf(d, ':');
      Some((d[..i], d[i + 1..]))
    else None
  }

  /**
   An endpoint without a colon is read back as the remote, and the rest as the base path, a
   slash and the path; so uploads to different paths go to different destinations.
   */
  lemma DestinationRoundTrip(endpoint: string, basePath: Option<string>, path: string)
    requires ':' !in endpoint
    ensures SplitRemote(Destination(endpoint, basePath, path))
      == Some((endpoint, (if basePath.Some? then basePath.value + "/" else "") + path))
  {
    var rest := (if basePath.Some? then basePath.value + "/" else "") + path;
    var d := Destination(endpoint, basePath, path);
    assert d == endpoint + (":" + rest);
    Text.IndexOfAfterPrefix(endpoint, ":" + rest, ':');
    assert d[..|endpoint|] == endpoint;
    assert d[|endpoint| + 1..] == rest;
  }

  /**
   `UploadWithRClone.onCompletion`: the rclone command line copying the output file to its
   destination; none when the box has no rclone configuration, the configuration has no
   executable or no endpoint, or there is no output file.
   */
  function OnCompletion(a: Action, config: Option<RCloneConfig>, outputPath: Option<string>): (argv: Option<seq<string>>)
    ensures argv.Some? <==>
      config.Some? && config.value.rcloneProcess.Some? && config.value.endpoint.Some? && outputPath.Some?
    ensures argv.Some? ==>
      (&& |argv.value| == 4 && argv.value[1] == "copyto"
       && argv.value[0] == config.value.rcloneProcess.value && argv.value[2] == outputPath.value)
    ensures argv.Some? ==>
      (&& SplitRemote(argv.value[3]).Some?
       && |a.path| < |argv.value[3]| && argv.value[3][|argv.value[3]| - |a.path|..] == a.path)
  {
    match config
    case None => None
    case Some(c) =>
      match c.rcloneProcess
      case None => None
      case Some(process) =>
        match c.endpoint
        case None => None
        case Some(endpoint) =>
          match outputPath
          case None => None
          case Some(file) =>
            var d := Destination(endpoint, c.basePath, a.path);
            assert d[|endpoint|] == ':';
            Some([process, "copyto", file, d])
  }

  /**
   From configuration to command: with the section present and an endpoint set, an upload
   action runs rclone (the configured one or the OS default) on the output, to the endpoint's
   base path; without the section or the endpoint it never runs.
   */
  lemma UploadRunsIffConfigured(section: Option<RCloneSection>, osName: string, a: Action, outputPath: Option<string>)
    ensures var argv := OnCompletion(a, Invoke(BuildRClone(section, osName)), outputPath);
      && (argv.Some? <==> section.Some? && section.value.endpoint.Some? && outputPath.Some?)
      && (argv.Some? ==>
            argv.value == [if section.value.rclone.Some? then section.value.rclone.value else DefaultRClone(osName),
                           "copyto", outputPath.value,
                           Destination(section.value.endpoint.value, section.value.basePath, a.path)])
  {
  }
}
