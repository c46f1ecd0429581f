/**
 The external client of the Node kind: how it finds the cluster it joins, and which unit
 it probes, restarts and removes.
 */
module NodeController {
  import opened Wrappers
  import opened Clients
  import opened K3s
  import opened Persist
  import opened Ssh

  // ---------------------------------------------------------------- the kind

  datatype Parameters = Parameters(
    host: string, port: int, cluster: Option<string>, role: string,
    k3sVersion: string, k3sChannel: string, extraArgs: string, tlsSAN: string)

  datatype Observation = Observation(
    id: string, ready: bool, host: string, port: int, cluster: string, role: string,
    k3sVersion: string, k3sChannel: string, extraArgs: string, tlsSAN: string)

  datatype MutableFields = MutableFields(k3sVersion: string, k3sChannel: string, extraArgs: string, tlsSAN: string)

  function MutableFieldsOf(p: Parameters): MutableFields {
    MutableFields(p.k3sVersion, p.k3sChannel, p.extraArgs, p.tlsSAN)
  }

  function JoinParamsFor(p: Parameters, serverHost: string, nodeToken: string): JoinParams {
    JoinParams(serverHost, nodeToken, p.role, p.k3sVersion, p.k3sChannel, p.extraArgs, p.tlsSAN)
  }

  const LAST_APPLIED := "k3s.crossplane.io/last-applied-node-config"

  function LastApplied(codec: Codec<MutableFields>, annotations: map<string, string>): Result<Option<MutableFields>, ()> {
    ReadRecord(codec, annotations, LAST_APPLIED)
  }

  class Node {
    var spec: Parameters
    var status: Observation
    var condition: Condition
    const meta: ObjectMeta

    constructor (spec: Parameters, status: Observation, meta: ObjectMeta)
      ensures this.spec == spec && this.status == status && this.meta == meta && condition == Unknown
    {
      this.spec, this.status, this.meta, condition := spec, status, meta, Unknown;
    }
  }

  // ---------------------------------------------------------------- finding the cluster

  // A Cluster as the API server holds it, and the secrets it may point to.
  datatype ClusterObject = ClusterObject(host: string, connectionSecret: Option<SecretName>)
  datatype SecretName = SecretName(namespace: string, name: string)
  datatype Kube = Kube(clusters: map<string, ClusterObject>, secrets: map<SecretName, map<string, string>>)

  datatype Identity = Identity(serverHost: string, nodeToken: string)

  function ResolveClusterInfo(kube: Kube, name: string): Result<Identity, Unresolved> {
    if name !in kube.clusters then Failure(NoCluster)
    else
      var cluster := kube.clusters[name];
      if cluster.connectionSecret.None? then Failure(NoSecretRef)
      else if cluster.connectionSecret.value !in kube.secrets then Failure(NoSecret)
      else
        var secret := kube.secrets[cluster.connectionSecret.value];
        if "node-token" !in secret || secret["node-token"] == "" then Failure(NoNodeToken)
        else Success(Identity(cluster.host, secret["node-token"]))
  }

  // The cluster of that name has this host, and the secret it points to holds this token.
  predicate ResolvesTo(kube: Kube, name: string, host: string, token: string) {
    && name in kube.clusters
    && kube.clusters[name].host == host
    && kube.clusters[name].connectionSecret.Some?
    && var ref := kube.clusters[name].connectionSecret.value;
    && ref in kube.secrets
    && "node-token" in kube.secrets[ref]
    && kube.secrets[ref]["node-token"] == token
    && token != ""
  }

  lemma ResolutionIsExact(kube: Kube, name: string, host: string, token: string)
    ensures ResolveClusterInfo(kube, name) == Success(Identity(host, token)) <==> ResolvesTo(kube, name, host, token)
    ensures ResolveClusterInfo(kube, name) == Failure(NoCluster) <==> name !in kube.clusters
    ensures ResolveClusterInfo(kube, name) == Failure(NoSecretRef) <==>
      name in kube.clusters && kube.clusters[name].connectionSecret.None?
    ensures ResolveClusterInfo(kube, name) == Failure(NoSecret) <==>
      name in kube.clusters && kube.clusters[name].connectionSecret.Some?
      && kube.clusters[name].connectionSecret.value !in kube.secrets
  {}

  // What Connect stores in the client. A failed resolution is kept for Create and Update
  // to report; it does not fail the connection.
  datatype Client = Client(serverHost: string, nodeToken: string, clusterErr: Option<Unresolved>, role: string)

  predicate NamesCluster(p: Parameters) {
    p.cluster.Some? && p.cluster.value != ""
  }

  function Connect(kube: Kube, p: Parameters): Client {
    if !NamesCluster(p) then Client("", "", None, p.role)
    else
      match ResolveClusterInfo(kube, p.cluster.value)
      case Success(id) => Client(id.serverHost, id.nodeToken, None, p.role)
      case Failure(e) => Client("", "", Some(e), p.role)
  }

  // A spec that names no cluster is not resolved at all; otherwise the client holds what
  // the name resolved to, or why it did not.
  lemma ConnectIsExact(kube: Kube, p: Parameters, host: string, token: string)
    ensures Connect(kube, p).role == p.role
    ensures p.cluster in [None, Some("")] ==> Connect(kube, p) == Client("", "", None, p.role)
    ensures p.cluster.Some? && p.cluster.value != "" ==>
      && (Connect(kube, p) == Client(host, token, None, p.role) <==> ResolvesTo(kube, p.cluster.value, host, token))
      && (forall e :: ResolveClusterInfo(kube, p.cluster.value) == Failure(e) ==> Connect(kube, p) == Client("", "", Some(e), p.role))
  {}

  // ---------------------------------------------------------------- the operations

  datatype Operation = Observe | Create(p: Parameters) | Update(p: Parameters) | Delete(p: Parameters)

  // The command an operation sends first, and the only one about a unit; an error keeps it
  // from sending any.
  function CommandFor(c: Client, op: Operation): Result<Command, Error> {
    match op
    case Observe => Success(Probe(ServiceNameForRole(c.role)))
    case Delete(p) => Success(Uninstall(if p.role == "server" then SERVER_SCRIPT else AGENT_SCRIPT))
    case _ =>
      if c.clusterErr.Some? then Failure(CannotJoin(c.clusterErr.value))
      else Success(Join(JoinParamsFor(op.p, c.serverHost, c.nodeToken)))
  }

  // status.atProvider after a successful observation. What was never recorded is zero.
  function StatusOf(
      p: Parameters, id: string, role: string, ready: bool, version: string, last: Option<MutableFields>): Observation
  {
    var cluster := if p.cluster.Some? then p.cluster.value else "";
    var base := Observation(id, ready, p.host, p.port, cluster, role, version, "", "", "");
    match last
    case None => base
    case Some(l) => base.(k3sChannel := l.k3sChannel, extraArgs := l.extraArgs, tlsSAN := l.tlsSAN)
  }

  // What Create and Update come to.
  function ApplyOutcome(
      c: Client, codec: Codec<MutableFields>, answer: (seq<Command>, Command) -> Option<string>, log: seq<Command>,
      o: Stored<Parameters>, p: Parameters, annotations: map<string, string>, attempts: seq<Attempt<Parameters>>)
    : Applied<Parameters>
  {
    match CommandFor(c, Update(p))
    case Failure(e) => Applied(Failure(e), o, annotations)
    case Success(join) =>
      AppliedBy(answer(log, join).Some?, o, LAST_APPLIED, codec.encode(MutableFieldsOf(p)), annotations, attempts)
  }

  function Sends(c: Client, op: Operation): seq<Command> {
    match CommandFor(c, op)
    case Success(command) => [command]
    case Failure(_) => []
  }

  class External {
    const ssh: Host
    const api: Api<Parameters>
    const codec: Codec<MutableFields>
    const client: Client

    constructor (ssh: Host, api: Api<Parameters>, codec: Codec<MutableFields>, kube: Kube, p: Parameters)
      ensures this.ssh == ssh && this.api == api && this.codec == codec && client == Connect(kube, p)
    {
      this.ssh, this.api, this.codec := ssh, api, codec;
      var serverHost, nodeToken, clusterErr := "", "", None;
      if NamesCluster(p) {
        match ResolveClusterInfo(kube, p.cluster.value) {
          case Success(id) => serverHost, nodeToken := id.serverHost, id.nodeToken;
          case Failure(e) => clusterErr := Some(e);
        }
      }
      client := Client(serverHost, nodeToken, clusterErr, p.role);
    }

    // Never looks at the cluster.
    method Observe(cr: Node) returns (result: Result<Verdict, Error>)
      modifies ssh, cr, cr.meta
      ensures cr.spec == old(cr.spec)
      ensures cr.meta.annotations == Named(old(cr.meta.annotations), cr.spec.host)
      ensures var reading := ReadUnit(ssh.answer, old(ssh.log), ServiceNameForRole(client.role));
        && ssh.log == old(ssh.log) + Sends(client, Operation.Observe) + (if reading.Found? then [Version] else [])
        && result == Judge(LastApplied(codec, old(cr.meta.annotations)), MutableFieldsOf(cr.spec), reading)
        && cr.condition == ConditionAfter(reading, old(cr.condition))
        && cr.status == if reading.Found? && result.Success?
                        then StatusOf(cr.spec, cr.spec.host, client.role, reading.ready, reading.version,
                                      LastApplied(codec, old(cr.meta.annotations)).value)
                        else old(cr.status)
    {
      SyncExternalName(cr);
      var reading := Read();
      result := Conclude(cr, reading);
    }

    method SyncExternalName(cr: Node)
      modifies cr.meta
      ensures cr.meta.annotations == Named(old(cr.meta.annotations), cr.spec.host)
      ensures LastApplied(codec, cr.meta.annotations) == LastApplied(codec, old(cr.meta.annotations))
    {
      assert |LAST_APPLIED| != |EXTERNAL_NAME|;
      if Annotation(cr.meta.annotations, EXTERNAL_NAME) != cr.spec.host {
        cr.meta.annotations := cr.meta.annotations[EXTERNAL_NAME := cr.spec.host];
      }
    }

    method Read() returns (reading: Reading)
      modifies ssh
      ensures reading == ReadUnit(ssh.answer, old(ssh.log), ServiceNameForRole(client.role))
      ensures ssh.log == old(ssh.log) + Sends(client, Operation.Observe) + if reading.Found? then [Version] else []
    {
      var stdout := ssh.Execute(Probe(ServiceNameForRole(client.role)));
      if stdout.None? {
        return NoAnswer;
      }
      var probe := ParseServiceProbe(stdout.value);
      if !probe.Exists() {
        return NoUnit;
      }
      var version := ssh.Execute(Version);
      return Found(probe.Ready(), if version.Some? then version.value else "");
    }

    method Conclude(cr: Node, reading: Reading) returns (result: Result<Verdict, Error>)
      modifies cr
      ensures cr.spec == old(cr.spec)
      ensures result == Judge(LastApplied(codec, cr.meta.annotations), MutableFieldsOf(cr.spec), reading)
      ensures cr.condition == ConditionAfter(reading, old(cr.condition))
      ensures cr.status == if reading.Found? && result.Success?
                           then StatusOf(cr.spec, cr.spec.host, client.role, reading.ready, reading.version,
                                         LastApplied(codec, cr.meta.annotations).value)
                           else old(cr.status)
    {
      if reading.NoAnswer? {
        return Failure(CannotProbe);
      }
      if reading.NoUnit? {
        return Success(Verdict(false, false));
      }
      cr.condition := if reading.ready then Available else Creating;

      var last := LastApplied(codec, cr.meta.annotations);
      if last.Failure? {
        return Failure(BadRecord);
      }
      cr.status := StatusOf(cr.spec, cr.spec.host, client.role, reading.ready, reading.version, last.value);
      return Success(Verdict(true, reading.ready && last.value == Some(MutableFieldsOf(cr.spec))));
    }

    // A failed resolution is reported, and nothing else happens, the condition included.
    method Create(cr: Node, attempts: seq<Attempt<Parameters>>) returns (result: Result<(), Error>)
      requires |attempts| == STEPS
      modifies ssh, api, cr, cr.meta
      ensures cr.spec == old(cr.spec) && cr.status == old(cr.status)
      ensures cr.condition == if client.clusterErr.Some? then old(cr.condition) else Creating
      ensures ssh.log == old(ssh.log) + Sends(client, Operation.Create(cr.spec))
      ensures Applied(result, api.o, cr.meta.annotations)
           == ApplyOutcome(client, codec, ssh.answer, old(ssh.log), old(api.o), cr.spec, old(cr.meta.annotations), attempts)
    {
      if client.clusterErr.Some? {
        return Failure(CannotJoin(client.clusterErr.value));
      }
      cr.condition := Creating;
      result := Apply(cr, attempts);
    }

    method Update(cr: Node, attempts: seq<Attempt<Parameters>>) returns (result: Result<(), Error>)
      requires |attempts| == STEPS
      modifies ssh, api, cr.meta
      ensures ssh.log == old(ssh.log) + Sends(client, Operation.Update(cr.spec))
      ensures Applied(result, api.o, cr.meta.annotations)
           == ApplyOutcome(client, codec, ssh.answer, old(ssh.log), old(api.o), cr.spec, old(cr.meta.annotations), attempts)
    {
      if client.clusterErr.Some? {
        return Failure(CannotJoin(client.clusterErr.value));
      }
      result := Apply(cr, attempts);
    }

    // Runs the join command with the whole spec, then records the mutable part of it.
    method Apply(cr: Node, attempts: seq<Attempt<Parameters>>) returns (result: Result<(), Error>)
      requires |attempts| == STEPS && client.clusterErr.None?
      modifies ssh, api, cr.meta
      ensures ssh.log == old(ssh.log) + Sends(client, Operation.Update(cr.spec))
      ensures Applied(result, api.o, cr.meta.annotations)
           == ApplyOutcome(client, codec, ssh.answer, old(ssh.log), old(api.o), cr.spec, old(cr.meta.annotations), attempts)
    {
      var stdout := ssh.Execute(Join(JoinParamsFor(cr.spec, client.serverHost, client.nodeToken)));
      if stdout.None? {
        return Failure(CannotExecute);
      }
      var ok := PersistAnnotation(api, cr.meta, LAST_APPLIED, codec.encode(MutableFieldsOf(cr.spec)), attempts);
      return if ok then Success(()) else Failure(CannotRecord);
    }

    // Never looks at the cluster either.
    method Delete(cr: Node) returns (result: Result<(), Error>)
      modifies ssh, cr
      ensures cr.condition == Deleting && cr.spec == old(cr.spec) && cr.status == old(cr.status)
      ensures ssh.log == old(ssh.log) + Sends(client, Operation.Delete(cr.spec))
      ensures result == if ssh.answer(old(ssh.log), CommandFor(client, Operation.Delete(cr.spec)).value).None?
                        then Failure(CannotExecute) else Success(())
    {
      cr.condition := Deleting;
      var stdout := ssh.Execute(Uninstall(if cr.spec.role == "server" then SERVER_SCRIPT else AGENT_SCRIPT));
      return if stdout.None? then Failure(CannotExecute) else Success(());
    }
  }

  // ---------------------------------------------------------------- the command

  // The join script replaces the whole configuration too; host and token are what Connect
  // resolved.
  predicate Echoes(command: Command, c: Client, p: Parameters) {
    && command.Join?
    && command.join.serverHost == c.serverHost
    && command.join.nodeToken == c.nodeToken
    && command.join.role == p.role
    && command.join.k3sVersion == p.k3sVersion
    && command.join.k3sChannel == p.k3sChannel
    && command.join.extraArgs == p.extraArgs
    && command.join.tlsSAN == p.tlsSAN
  }

  lemma CommandEchoesSpec(c: Client, p: Parameters, command: Command)
    ensures CommandFor(c, Operation.Create(p)) == CommandFor(c, Operation.Update(p))
    ensures CommandFor(c, Operation.Update(p)) == Success(command) <==> c.clusterErr.None? && Echoes(command, c, p)
  {}

  // The other two send theirs whether or not the resolution failed.
  lemma ProbeAndUninstall(c: Client, p: Parameters)
    ensures CommandFor(c, Operation.Observe) == Success(Probe(if c.role == "server" then "k3s" else "k3s-agent"))
    ensures CommandFor(c, Operation.Delete(p)) == Success(Uninstall(
      if p.role == "server" then "/usr/local/bin/k3s-uninstall.sh" else "/usr/local/bin/k3s-agent-uninstall.sh"))
  {}

  // Two specs send one command exactly if they agree in role and in what is recorded.
  lemma SameCommandExactly(c: Client, a: Parameters, b: Parameters)
    requires c.clusterErr.None?
    ensures CommandFor(c, Operation.Update(a)) == CommandFor(c, Operation.Update(b)) <==>
      a.role == b.role && MutableFieldsOf(a) == MutableFieldsOf(b)
  {}

  // Status: what identifies the resource and what cannot change is the spec's, the version is
  // the one read, and the other mutable fields are those of the record, or zero without one.
  lemma StatusMirrorsSpec(
      p: Parameters, id: string, role: string, ready: bool, version: string, last: Option<MutableFields>)
    ensures var o := StatusOf(p, id, role, ready, version, last);
      && o.id == id && o.ready == ready && o.role == role && o.k3sVersion == version
      && o.host == p.host && o.port == p.port
      && o.cluster == (match p.cluster case None => "" case Some(name) => name)
      && MutableFields(version, o.k3sChannel, o.extraArgs, o.tlsSAN) ==
           match last
           case None => MutableFields(version, "", "", "")
           case Some(l) => l.(k3sVersion := version)
  {}

  // The part of a join command the record is compared on.
  function MutableOfCommand(c: Command): MutableFields
    requires c.Join?
  {
    MutableFields(c.join.k3sVersion, c.join.k3sChannel, c.join.extraArgs, c.join.tlsSAN)
  }

  // A successful Create or Update stores the mutable part of the very command it sent, and
  // leaves every other annotation and the spec to whoever else writes them.
  lemma AppliedIsRecorded(
      c: Client, codec: Codec<MutableFields>, answer: (seq<Command>, Command) -> Option<string>, log: seq<Command>,
      o: Stored<Parameters>, p: Parameters, annotations: map<string, string>, attempts: seq<Attempt<Parameters>>)
    requires Faithful(codec)
    requires forall a, w :: a in attempts && w in a.meanwhile ==> SparesKey(w, LAST_APPLIED)
    ensures var done := ApplyOutcome(c, codec, answer, log, o, p, annotations, attempts);
      var alone := AfterAll(o, Interference(o, LAST_APPLIED, codec.encode(MutableFieldsOf(p)), attempts));
      done.result.Success? ==>
        && CommandFor(c, Operation.Update(p)).Success?
        && LastApplied(codec, done.o.annotations) == Success(Some(MutableOfCommand(CommandFor(c, Operation.Update(p)).value)))
        && (var key := "k3s.crossplane.io/last-applied-node-config";
            key in done.o.annotations && done.o.annotations[key] == codec.encode(MutableFieldsOf(p)))
        && done.o.spec == alone.spec
        && done.o.annotations - {LAST_APPLIED} == alone.annotations - {LAST_APPLIED}
  {
    var value := codec.encode(MutableFieldsOf(p));
    assert codec.decode(value) == Some(MutableFieldsOf(p)) && value != "";
    OnlyWriterRecords(o, LAST_APPLIED, value, attempts);
    NoLostUpdate(o, LAST_APPLIED, value, attempts);
  }

  // So the next observation of the stored object is up to date as soon as the unit is
  // ready, if and only if the mutable part of the spec is still the one applied.
  lemma AppliedIsUpToDate(
      c: Client, codec: Codec<MutableFields>, answer: (seq<Command>, Command) -> Option<string>, log: seq<Command>,
      o: Stored<Parameters>, p: Parameters, annotations: map<string, string>, attempts: seq<Attempt<Parameters>>,
      reading: Reading)
    requires Faithful(codec) && reading.Found?
    requires forall a, w :: a in attempts && w in a.meanwhile ==> SparesKey(w, LAST_APPLIED)
    ensures var done := ApplyOutcome(c, codec, answer, log, o, p, annotations, attempts);
      done.result.Success? ==>
        Judge(LastApplied(codec, done.o.annotations), MutableFieldsOf(done.o.spec), reading)
          == Success(Verdict(true, reading.ready && MutableFieldsOf(done.o.spec) == MutableFieldsOf(p)))
  {
    AppliedIsRecorded(c, codec, answer, log, o, p, annotations, attempts);
  }

  // ---------------------------------------------------------------- runs

  // One reconcile: what the API server held when it connected, the spec it connected with,
  // and what it then did.
  datatype Reconcile = Reconcile(kube: Kube, p: Parameters, ops: seq<Operation>)

  function CommandsOf(c: Client, ops: seq<Operation>): seq<Command> {
    if ops == [] then []
    else Sends(c, ops[0]) + CommandsOf(c, ops[1..])
  }

  function Commands(run: seq<Reconcile>): seq<Command> {
    if run == [] then []
    else CommandsOf(Connect(run[0].kube, run[0].p), run[0].ops) + Commands(run[1..])
  }

  // The commands of a run are those of its reconciles, one after the other.
  lemma {:induction false} CommandsConcat(before: seq<Reconcile>, r: Reconcile, after: seq<Reconcile>)
    ensures Commands(before + [r] + after) == Commands(before) + CommandsOf(Connect(r.kube, r.p), r.ops) + Commands(after)
  {
    var run := before + [r] + after;
    if before == [] {
      assert run[0] == r && run[1..] == after;
    } else {
      assert run[0] == before[0] && run[1..] == before[1..] + [r] + after;
      CommandsConcat(before[1..], r, after);
    }
  }

  // The reconcile that sent command i.
  function Sender(run: seq<Reconcile>, i: nat): (j: nat)
    requires i < |Commands(run)|
    ensures j < |run|
  {
    var here := CommandsOf(Connect(run[0].kube, run[0].p), run[0].ops);
    if i < |here| then 0 else 1 + Sender(run[1..], i - |here|)
  }

  lemma {:induction false} ClientJoins(kube: Kube, p: Parameters, ops: seq<Operation>, i: nat)
    requires NamesCluster(p) && i < |CommandsOf(Connect(kube, p), ops)|
    ensures var c := CommandsOf(Connect(kube, p), ops)[i];
      c.Join? ==>
        c.join.nodeToken != "" && ResolvesTo(kube, p.cluster.value, c.join.serverHost, c.join.nodeToken)
  {
    var client := Connect(kube, p);
    var first := if CommandFor(client, ops[0]).Success? then 1 else 0;
    if i >= first {
      ClientJoins(kube, p, ops[1..], i - first);
    }
  }

  // In every run, a join command that is sent when `cluster` was set and not empty at
  // Connect carries a token, and host and token of the cluster that spec names as the API
  // server held it then.
  lemma {:induction false} EveryJoinIsResolved(run: seq<Reconcile>, i: nat)
    requires i < |Commands(run)| && NamesCluster(run[Sender(run, i)].p)
    ensures var c, r := Commands(run)[i], run[Sender(run, i)];
      && c in CommandsOf(Connect(r.kube, r.p), r.ops)
      && (c.Join? ==>
            c.join.nodeToken != "" && ResolvesTo(r.kube, r.p.cluster.value, c.join.serverHost, c.join.nodeToken))
  {
    var here := CommandsOf(Connect(run[0].kube, run[0].p), run[0].ops);
    if i < |here| {
      ClientJoins(run[0].kube, run[0].p, run[0].ops, i);
    } else {
      EveryJoinIsResolved(run[1..], i - |here|);
      assert Commands(run)[i] == Commands(run[1..])[i - |here|];
      assert run[Sender(run, i)] == run[1..][Sender(run[1..], i - |here|)];
    }
  }

  // The guard is needed: a join that is sent carries a token exactly when the spec named a
  // cluster at Connect.
  lemma TokenNeedsCluster(kube: Kube, p: Parameters, op: Operation)
    requires (op.Create? || op.Update?) && CommandFor(Connect(kube, p), op).Success?
    ensures CommandFor(Connect(kube, p), op).value.join.nodeToken != "" <==> p.cluster.Some? && p.cluster.value != ""
  {}

  // A failed resolution lets every Observe and Delete through and no join.
  lemma {:induction false} FailedResolutionOnlyStopsJoins(kube: Kube, p: Parameters, ops: seq<Operation>)
    requires NamesCluster(p) && ResolveClusterInfo(kube, p.cluster.value).Failure?
    ensures var c := Connect(kube, p);
      && (forall command :: command in CommandsOf(c, ops) ==> !command.Join?)
      && (forall op :: op in ops && (op.Observe? || op.Delete?) ==>
            CommandFor(c, op).Success? && CommandFor(c, op).value in CommandsOf(c, ops))
  {
    if ops != [] {
      FailedResolutionOnlyStopsJoins(kube, p, ops[1..]);
    }
  }

  // The unit a command is about, if it is about one.
  function UnitOf(c: Command): Option<string> {
    match c
    case Probe(unit) => Some(unit)
    case Install(_) => Some(Restarts(c))
    case Join(_) => Some(Restarts(c))
    case Uninstall(script) => Some(Removes(script))
    case _ => None
  }

  predicate RoleIs(role: string, r: Reconcile) {
    r.p.role == role && forall op :: op in r.ops && !op.Observe? ==> op.p.role == role
  }

  lemma {:induction false} ClientKeepsUnit(c: Client, ops: seq<Operation>, role: string)
    requires c.role == role && forall op :: op in ops && !op.Observe? ==> op.p.role == role
    ensures forall command :: command in CommandsOf(c, ops) ==> UnitOf(command) == Some(if role == "server" then "k3s" else "k3s-agent")
  {
    if ops != [] {
      assert ops[0] in ops;
      ClientKeepsUnit(c, ops[1..], role);
      assert |SERVER_SCRIPT| != |AGENT_SCRIPT|;
    }
  }

  // With the role fixed, as admission has it, all reconciles of a node probe, restart and
  // remove one and the same unit.
  lemma {:induction false} OneUnitPerRole(run: seq<Reconcile>, role: string)
    requires forall r :: r in run ==> RoleIs(role, r)
    ensures forall command :: command in Commands(run) ==> UnitOf(command) == Some(if role == "server" then "k3s" else "k3s-agent")
  {
    if run != [] {
      assert run[0] in run;
      ClientKeepsUnit(Connect(run[0].kube, run[0].p), run[0].ops, role);
      OneUnitPerRole(run[1..], role);
    }
  }
}
