/** The commands sent to a k3s host, and the reply of the probe that tells what runs there. */
module K3s {
  import opened Text

  // ---------------------------------------------------------------- commands

  datatype InstallParams = InstallParams(
    k3sVersion: string, k3sChannel: string, clusterInit: bool, tlsSAN: string,
    disableTraefik: bool, disableServiceLB: bool, extraArgs: string, datastoreEndpoint: string)

  datatype JoinParams = JoinParams(
    serverHost: string, nodeToken: string, role: string, k3sVersion: string,
    k3sChannel: string, extraArgs: string, tlsSAN: string)

  // A command line is a function of its parameters; the text itself is not modelled.
  datatype Command =
    | Probe(unit: string)
    | Version
    | ReadNodeToken
    | ReadKubeconfig
    | Install(install: InstallParams)
    | Join(join: JoinParams)
    | Uninstall(script: string)

  const SERVER_UNIT := "k3s"
  const AGENT_UNIT := "k3s-agent"
  const SERVER_SCRIPT := "/usr/local/bin/k3s-uninstall.sh"
  const AGENT_SCRIPT := "/usr/local/bin/k3s-agent-uninstall.sh"

  function ServiceNameForRole(role: string): string {
    if role == "server" then SERVER_UNIT else AGENT_UNIT
  }

  // The unit an install or join command restarts at its end.
  function Restarts(c: Command): string
    requires c.Install? || c.Join?
  {
    if c.Install? then ServiceNameForRole("server") else ServiceNameForRole(c.join.role)
  }

  // The unit whose artifacts an uninstall script removes.
  function Removes(script: string): string {
    if script == SERVER_SCRIPT then SERVER_UNIT else AGENT_UNIT
  }

  // Both kinds of command agree on the unit of a role: what is installed or joined is what
  // is probed, and its script removes it.
  lemma UnitsAndScripts(role: string, install: InstallParams, join: JoinParams)
    ensures ServiceNameForRole(role) == if role == "server" then "k3s" else "k3s-agent"
    ensures Restarts(Install(install)) == "k3s"
    ensures Restarts(Join(join)) == if join.role == "server" then "k3s" else "k3s-agent"
    ensures Removes("/usr/local/bin/k3s-uninstall.sh") == "k3s"
    ensures Removes("/usr/local/bin/k3s-agent-uninstall.sh") == "k3s-agent"
  {
    assert |"/usr/local/bin/k3s-uninstall.sh"| != |"/usr/local/bin/k3s-agent-uninstall.sh"|;
  }

  // ---------------------------------------------------------------- the probe

  datatype ServiceProbe = ServiceProbe(loadState: string, activeState: string) {
    predicate Exists() {
      loadState != "" && loadState != "not-found"
    }

    predicate Ready() {
      activeState == "active"
    }
  }

  // Where the first line of a reply ends.
  function LineEnd(s: string, from: nat := 0): (n: nat)
    requires from <= |s|
    ensures from <= n <= |s| && (n < |s| ==> s[n] == '\n')
    ensures forall i :: from <= i < n ==> s[i] != '\n'
    decreases |s| - from
  {
    if from == |s| || s[from] == '\n' then from else LineEnd(s, from + 1)
  }

  function ParseServiceProbe(stdout: string): ServiceProbe {
    SplitReply(TrimSpace(stdout))
  }

  function SplitReply(reply: string): ServiceProbe {
    var end := LineEnd(reply);
    ServiceProbe(TrimSpace(reply[..end]), if end < |reply| then TrimSpace(reply[end + 1..]) else "")
  }

  predicate Token(s: string) {
    forall i :: 0 <= i < |s| ==> !IsSpace(s[i])
  }

  // What systemctl show --value prints for the two properties.
  function ProbeReply(load: string, active: string, trailing: string): string {
    load + "\n" + active + trailing
  }

  // The reply gives back both states, except when the first line is empty and the second
  // is not: trimming then moves the second line up.
  lemma ProbeReplyParses(load: string, active: string, trailing: string)
    requires Token(load) && Token(active) && Blank(trailing)
    ensures ParseServiceProbe(ProbeReply(load, active, trailing)) == ServiceProbe(load, active)
      <==> load != "" || active == ""
  {
    ReplyTrims(load, active, trailing);
    if load == "" {
      TokenSplits(active);
    } else if active == "" {
      TokenSplits(load);
    } else {
      TwoLinesSplit(load, active);
    }
  }

  lemma ReplyTrims(load: string, active: string, trailing: string)
    requires Token(load) && Token(active) && Blank(trailing)
    ensures TrimSpace(ProbeReply(load, active, trailing)) ==
      if load == "" then active else if active == "" then load else load + "\n" + active
  {
    if load == "" {
      SecondLineTrims(active, trailing);
      SameTrim(ProbeReply(load, active, trailing), "\n" + (active + trailing));
    } else if active == "" {
      FirstLineTrims(load, trailing);
      SameTrim(ProbeReply(load, active, trailing), load + ("\n" + trailing));
    } else {
      TwoLinesTrimmed(load, active);
      TrimTrailing(load + "\n" + active, trailing);
    }
  }

  lemma FirstLineTrims(line: string, trailing: string)
    requires Token(line) && Blank(trailing)
    ensures TrimSpace(line + ("\n" + trailing)) == line
  {
    TrimTrailing(line, "\n" + trailing);
  }

  lemma SecondLineTrims(line: string, trailing: string)
    requires Token(line) && Blank(trailing)
    ensures TrimSpace("\n" + (line + trailing)) == line
  {
    LeadingNewline(line + trailing);
    TrimTrailing(line, trailing);
  }

  lemma TwoLinesTrimmed(load: string, active: string)
    requires load != "" && active != "" && Token(load) && Token(active)
    ensures Trimmed(load + "\n" + active)
  {
    var s := load + "\n" + active;
    assert s[0] == load[0] && s[|s| - 1] == active[|active| - 1];
  }

  lemma SameTrim(a: string, b: string)
    requires a == b
    ensures TrimSpace(a) == TrimSpace(b)
  {}

  lemma LeadingNewline(s: string)
    ensures TrimSpace("\n" + s) == TrimSpace(s)
  {
    assert ("\n" + s)[1..] == s;
  }

  lemma TokenTrims(s: string)
    requires Token(s)
    ensures TrimSpace(s) == s
  {
    TrimOfTrimmed(s);
  }

  lemma TokenLineEnd(first: string, rest: string)
    requires Token(first) && (rest == "" || rest[0] == '\n')
    ensures LineEnd(first + rest) == |first|
  {
    var s := first + rest;
    assert forall i :: 0 <= i < |first| ==> s[i] == first[i];
    assert rest != "" ==> s[|first|] == '\n';
  }

  lemma TokenSplits(s: string)
    requires Token(s)
    ensures SplitReply(s) == ServiceProbe(s, "")
  {
    TokenTrims(s);
    WholeLine(s);
    SplitsInto(s, s, "");
  }

  lemma WholeLine(s: string)
    requires Token(s)
    ensures LineEnd(s) == |s| && s[..|s|] == s
  {
    TokenLineEnd(s, "");
    assert s + "" == s;
  }

  lemma TwoLinesSplit(load: string, active: string)
    requires Token(load) && Token(active)
    ensures SplitReply(load + "\n" + active) == ServiceProbe(load, active)
  {
    TokenTrims(load);
    TokenTrims(active);
    TwoLines(load, active);
    SplitsInto(load + "\n" + active, load, active);
  }

  lemma TwoLines(load: string, active: string)
    requires Token(load)
    ensures var reply := load + "\n" + active;
      LineEnd(reply) == |load| && reply[..|load|] == load && reply[|load| + 1..] == active
  {
    TokenLineEnd(load, "\n" + active);
    assert load + "\n" + active == load + ("\n" + active);
  }

  lemma SplitsInto(reply: string, load: string, active: string)
    requires LineEnd(reply) == |load| <= |reply| && reply[..|load|] == load
    requires if |load| < |reply| then reply[|load| + 1..] == active else active == ""
    requires TrimSpace(load) == load && TrimSpace(active) == active
    ensures SplitReply(reply) == ServiceProbe(load, active)
  {}

  // A unit systemd reports a load state for exists exactly when that state is not
  // "not-found", and is ready exactly when it is active, whatever blanks end the reply.
  lemma ProbeVerdict(load: string, active: string, trailing: string)
    requires load != "" && Token(load) && Token(active) && Blank(trailing)
    ensures var probe := ParseServiceProbe(ProbeReply(load, active, trailing));
      (probe.Exists() <==> load != "not-found") && (probe.Ready() <==> active == "active")
  {
    ProbeReplyParses(load, active, trailing);
  }

  // A reply of blanks, as of a probe that did not run, is of no unit.
  lemma BlankReplyIsAbsent(blanks: string)
    requires Blank(blanks)
    ensures !ParseServiceProbe(blanks).Exists() && !ParseServiceProbe(blanks).Ready()
  {
    TrimTrailing("", blanks);
    assert "" + blanks == blanks;
  }
}
