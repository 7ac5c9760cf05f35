/**
 The command line one download attempt runs: tool, configured default arguments, the
 caller's options, the egress flags (a borrowed proxy, else a rotated source address),
 the output template and the URL.
 */
module CommandLine {
  import opened Wrappers
  import opened DataObjects
  import opened Rotator

  /** How an attempt leaves the machine. */
  datatype Egress = ViaProxy(address: string) | ViaSource(source: Address) | Direct

  /**
   A borrowed proxy wins; without one, the rotator's next address is used when the rotator
   is configured and open (`drawn` is what its `receive` returns); otherwise no flag.
   */
  function ChooseEgress(proxy: Option<DownloadProxy>, drawn: Option<Address>): (e: Egress)
    ensures e.ViaProxy? <==> proxy.Some?
    ensures e.ViaProxy? ==> e.address == proxy.value.address
    ensures e.ViaSource? <==> proxy.None? && drawn.Some?
    ensures e.ViaSource? ==> e.source == drawn.value
  {
    if proxy.Some? then ViaProxy(proxy.value.address)
    else if drawn.Some? then ViaSource(drawn.value)
    else Direct
  }

  /**
   The egress flags. The IPv4 branch re-tests `isIPv6`, so it can never be taken and an IPv4
   source address gets no family flag.
   */
  function EgressArgs(e: Egress): seq<string> {
    match e
    case ViaProxy(address) => ["--proxy", address]
    case ViaSource(ip) =>
      (if ip.isIPv6 then ["--force-ipv6"] else if ip.isIPv6 then ["--force-ipv4"] else [])
      + ["--source-address", ip.canonical]
    case Direct => []
  }

  /** The attempt's command line: the tool first, then "-o", the template and the URL last. */
  function Build(process: string, defaultArgs: seq<string>, options: seq<string>, egress: Egress,
                 template: string, url: string): (cmd: seq<string>)
    ensures |cmd| == 1 + |defaultArgs| + |options| + |EgressArgs(egress)| + 3
    ensures cmd[0] == process && cmd[|cmd| - 3..] == ["-o", template, url]
  {
    [process] + defaultArgs + options + EgressArgs(egress) + ["-o", template, url]
  }

  /**
   Between the tool and "-o" the command line holds the default arguments, the caller's
   options and the egress flags, each piece at its own position.
   */
  lemma BuildLayout(process: string, defaultArgs: seq<string>, options: seq<string>, egress: Egress,
                    template: string, url: string)
    ensures var cmd := Build(process, defaultArgs, options, egress, template, url);
      && cmd[1..1 + |defaultArgs|] == defaultArgs
      && cmd[1 + |defaultArgs|..1 + |defaultArgs| + |options|] == options
      && cmd[1 + |defaultArgs| + |options|..|cmd| - 3] == EgressArgs(egress)
  {
    var cmd := Build(process, defaultArgs, options, egress, template, url);
    var pre := [process] + defaultArgs;
    var mid := pre + options;
    var flagged := mid + EgressArgs(egress);
    assert cmd == flagged + ["-o", template, url];
    assert cmd[..|flagged|] == flagged;
    assert flagged[..|mid|] == mid;
    assert mid[..|pre|] == pre;
    assert cmd[1..1 + |defaultArgs|] == pre[1..];
    assert cmd[1 + |defaultArgs|..|mid|] == mid[|pre|..];
    assert cmd[|mid|..|cmd| - 3] == flagged[|mid|..];
  }

  /** The pieces a command line is built from. */
  datatype Parts = Parts(process: string, defaultArgs: seq<string>, options: seq<string>,
                         egress: Egress, template: string, url: string)

  /** Reads the egress flags back. */
  function ParseEgress(flags: seq<string>): Option<Egress> {
    if flags == [] then Some(Direct)
    else if |flags| == 2 && flags[0] == "--proxy" then Some(ViaProxy(flags[1]))
    else if |flags| == 2 && flags[0] == "--source-address" then Some(ViaSource(Address(flags[1], false)))
    else if |flags| == 3 && flags[0] == "--force-ipv6" && flags[1] == "--source-address" then
      Some(ViaSource(Address(flags[2], true)))
    else None
  }

  /** Splits a command line back into its pieces, given how many default and caller arguments it has. */
  function Dissect(cmd: seq<string>, defaultCount: nat, optionCount: nat): Option<Parts> {
    var head := 1 + defaultCount + optionCount;
    if |cmd| < head + 3 || cmd[|cmd| - 3] != "-o" then None
    else
      match ParseEgress(cmd[head..|cmd| - 3])
      case None => None
      case Some(egress) =>
        Some(Parts(cmd[0], cmd[1..1 + defaultCount], cmd[1 + defaultCount..head], egress,
                   cmd[|cmd| - 2], cmd[|cmd| - 1]))
  }

  /**
   Building and dissecting are inverse: every piece, including the kind of egress and the
   address family of a source address, can be read back from the command line.
   */
  lemma DissectBuild(p: Parts)
    ensures Dissect(Build(p.process, p.defaultArgs, p.options, p.egress, p.template, p.url),
                    |p.defaultArgs|, |p.options|) == Some(p)
  {
    var flags := EgressArgs(p.egress);
    var cmd := Build(p.process, p.defaultArgs, p.options, p.egress, p.template, p.url);
    BuildLayout(p.process, p.defaultArgs, p.options, p.egress, p.template, p.url);
    match p.egress
    case ViaSource(ip) => assert ip == Address(ip.canonical, ip.isIPv6);
    case _ =>
  }

  /** Position `i` of an argument list holds a flag: it is not the value after "--proxy" or "--source-address". */
  predicate FlagPosition(args: seq<string>, i: int) {
    0 <= i < |args| && (i == 0 || (args[i - 1] != "--source-address" && args[i - 1] != "--proxy"))
  }

  lemma FlagNotIpv4(e: Egress, i: int)
    requires FlagPosition(EgressArgs(e), i)
    ensures EgressArgs(e)[i] != "--force-ipv4"
  {
    match e
    case ViaProxy(_) =>
    case ViaSource(ip) =>
      assert "--force-ipv6"[11] != "--force-ipv4"[11];
    case Direct =>
  }

  /**
   An IPv4 source address is passed with no family flag, and "--force-ipv4" is never emitted
   as a flag: it can only appear as the value of "--proxy" or "--source-address".
   */
  lemma NeverForcesIpv4(ip: Address)
    requires !ip.isIPv6
    ensures EgressArgs(ViaSource(ip)) == ["--source-address", ip.canonical]
    ensures forall e: Egress, i :: FlagPosition(EgressArgs(e), i) ==> EgressArgs(e)[i] != "--force-ipv4"
  {
    forall e: Egress, i | FlagPosition(EgressArgs(e), i)
      ensures EgressArgs(e)[i] != "--force-ipv4"
    {
      FlagNotIpv4(e, i);
    }
  }
}
