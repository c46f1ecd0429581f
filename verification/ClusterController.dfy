/**
 The external client of the Cluster kind: what it reads from the host, what it sends there,
 and what it records of it.
 */
module ClusterController {
  import opened Wrappers
  import opened Json
  import opened Clients
  import opened K3s
  import opened Persist
  import opened Ssh

  // ---------------------------------------------------------------- the kind

  datatype Parameters = Parameters(
    host: string, port: int, k3sVersion: string, k3sChannel: string, clusterInit: bool, tlsSAN: string,
    disableTraefik: bool, disableServiceLB: bool, extraArgs: string, datastoreEndpoint: string)

  datatype Observation = Observation(
    id: string, ready: bool, host: string, port: int, k3sVersion: string, k3sChannel: string, clusterInit: bool,
    tlsSAN: string, disableTraefik: bool, disableServiceLB: bool, extraArgs: string, datastoreEndpoint: string)

  // The fields the controller owns convergence for.
  datatype MutableFields = MutableFields(
    k3sVersion: string, k3sChannel: string, tlsSAN: string,
    disableTraefik: bool, disableServiceLB: bool, extraArgs: string)

  function MutableFieldsOf(p: Parameters): MutableFields {
    MutableFields(p.k3sVersion, p.k3sChannel, p.tlsSAN, p.disableTraefik, p.disableServiceLB, p.extraArgs)
  }

  function InstallParamsFor(p: Parameters): InstallParams {
    InstallParams(p.k3sVersion, p.k3sChannel, p.clusterInit, p.tlsSAN,
                  p.disableTraefik, p.disableServiceLB, p.extraArgs, p.datastoreEndpoint)
  }

  const LAST_APPLIED := "k3s.crossplane.io/last-applied-cluster-config"

  class Cluster {
    var spec: Parameters
    var status: Observation
    var condition: Condition
    const meta: ObjectMeta

    constructor (spec: Parameters, status: Observation, meta: ObjectMeta)
      ensures this.spec == spec && this.status == status && this.meta == meta && condition == Unknown
    {
      this.spec, this.status, this.meta, condition := spec, status, meta, Unknown;
    }
  }

  // ---------------------------------------------------------------- reading

  function LastApplied(codec: Codec<MutableFields>, annotations: map<string, string>): Result<Option<MutableFields>, ()> {
    ReadRecord(codec, annotations, LAST_APPLIED)
  }

  // status.atProvider after a successful observation. What was never recorded is zero.
  function StatusOf(p: Parameters, id: string, ready: bool, version: string, last: Option<MutableFields>): Observation {
    var base := Observation(id, ready, p.host, p.port, version, "", p.clusterInit, "", false, false, "", p.datastoreEndpoint);
    match last
    case None => base
    case Some(l) => base.(k3sChannel := l.k3sChannel, tlsSAN := l.tlsSAN, disableTraefik := l.disableTraefik,
                          disableServiceLB := l.disableServiceLB, extraArgs := l.extraArgs)
  }

  // What an existing unit is asked beyond the probe. The last two answers go into the
  // connection details, which are not modelled.
  const QUERIES := [Version, ReadNodeToken, ReadKubeconfig]

  function ApplyOutcome(
      codec: Codec<MutableFields>, answer: (seq<Command>, Command) -> Option<string>, log: seq<Command>, o: Stored<Parameters>,
      p: Parameters, annotations: map<string, string>, attempts: seq<Attempt<Parameters>>): Applied<Parameters>
  {
    AppliedBy(answer(log, Install(InstallParamsFor(p))).Some?, o, LAST_APPLIED, codec.encode(MutableFieldsOf(p)),
              annotations, attempts)
  }

  class External {
    const ssh: Host
    const api: Api<Parameters>
    const codec: Codec<MutableFields>

    constructor (ssh: Host, api: Api<Parameters>, codec: Codec<MutableFields>)
      ensures this.ssh == ssh && this.api == api && this.codec == codec
    {
      this.ssh, this.api, this.codec := ssh, api, codec;
    }

    method Observe(cr: Cluster) returns (result: Result<Verdict, Error>)
      modifies ssh, cr, cr.meta
      ensures cr.spec == old(cr.spec)
      ensures cr.meta.annotations == Named(old(cr.meta.annotations), cr.spec.host)
      ensures var reading := ReadUnit(ssh.answer, old(ssh.log), SERVER_UNIT);
        && ssh.log == old(ssh.log) + [Probe(SERVER_UNIT)] + (if reading.Found? then QUERIES else [])
        && result == Judge(LastApplied(codec, old(cr.meta.annotations)), MutableFieldsOf(cr.spec), reading)
        && cr.condition == ConditionAfter(reading, old(cr.condition))
        && cr.status == if reading.Found? && result.Success?
                        then StatusOf(cr.spec, cr.spec.host, reading.ready, reading.version,
                                      LastApplied(codec, old(cr.meta.annotations)).value)
                        else old(cr.status)
    {
      SyncExternalName(cr);
      var reading := Read();
      result := Conclude(cr, reading);
    }

    method SyncExternalName(cr: Cluster)
      modifies cr.meta
      ensures cr.meta.annotations == Named(old(cr.meta.annotations), cr.spec.host)
      ensures LastApplied(codec, cr.meta.annotations) == LastApplied(codec, old(cr.meta.annotations))
    {
      assert |LAST_APPLIED| != |EXTERNAL_NAME|;
      if Annotation(cr.meta.annotations, EXTERNAL_NAME) != cr.spec.host {
        cr.meta.annotations := cr.meta.annotations[EXTERNAL_NAME := cr.spec.host];
      }
    }

    method Conclude(cr: Cluster, reading: Reading) returns (result: Result<Verdict, Error>)
      modifies cr
      ensures cr.spec == old(cr.spec)
      ensures result == Judge(LastApplied(codec, cr.meta.annotations), MutableFieldsOf(cr.spec), reading)
      ensures cr.condition == ConditionAfter(reading, old(cr.condition))
      ensures cr.status == if reading.Found? && result.Success?
                           then StatusOf(cr.spec, cr.spec.host, reading.ready, reading.version,
                                         LastApplied(codec, cr.meta.annotations).value)
                           else old(cr.status)
    {
      if reading.NoAnswer? {
        return Failure(CannotProbe);
      }
      if reading.NoUnit? {
        return Success(Verdict(false, false));
      }
      cr.condition := if reading.ready then Available else Creating;

      var last := LastApplied(codec, cr.meta.annotations);
      if last.Failure? {
        return Failure(BadRecord);
      }
      cr.status := StatusOf(cr.spec, cr.spec.host, reading.ready, reading.version, last.value);
      return Success(Verdict(true, reading.ready && last.value == Some(MutableFieldsOf(cr.spec))));
    }

    method Read() returns (reading: Reading)
      modifies ssh
      ensures reading == ReadUnit(ssh.answer, old(ssh.log), SERVER_UNIT)
      ensures ssh.log == old(ssh.log) + [Probe(SERVER_UNIT)] + if reading.Found? then QUERIES else []
    {
      var stdout := ssh.Execute(Probe(SERVER_UNIT));
      if stdout.None? {
        return NoAnswer;
      }
      var probe := ParseServiceProbe(stdout.value);
      if !probe.Exists() {
        return NoUnit;
      }
      var version := ssh.Execute(Version);
      var nodeToken := ssh.Execute(ReadNodeToken);
      var kubeconfig := ssh.Execute(ReadKubeconfig);
      return Found(probe.Ready(), if version.Some? then version.value else "");
    }

    // Runs the install command with the whole spec, then records the mutable part of it.
    method Apply(cr: Cluster, attempts: seq<Attempt<Parameters>>) returns (result: Result<(), Error>)
      requires |attempts| == STEPS
      modifies ssh, api, cr.meta
      ensures |ssh.log| == |old(ssh.log)| + 1 && ssh.log[..|old(ssh.log)|] == old(ssh.log)
      ensures Echoes(ssh.log[|old(ssh.log)|], cr.spec)
      ensures Applied(result, api.o, cr.meta.annotations)
           == ApplyOutcome(codec, ssh.answer, old(ssh.log), old(api.o), cr.spec, old(cr.meta.annotations), attempts)
    {
      var stdout := ssh.Execute(Install(InstallParamsFor(cr.spec)));
      if stdout.None? {
        return Failure(CannotExecute);
      }
      var ok := PersistAnnotation(api, cr.meta, LAST_APPLIED, codec.encode(MutableFieldsOf(cr.spec)), attempts);
      return if ok then Success(()) else Failure(CannotRecord);
    }

    method Create(cr: Cluster, attempts: seq<Attempt<Parameters>>) returns (result: Result<(), Error>)
      requires |attempts| == STEPS
      modifies ssh, api, cr, cr.meta
      ensures cr.spec == old(cr.spec) && cr.status == old(cr.status) && cr.condition == Creating
      ensures |ssh.log| == |old(ssh.log)| + 1 && ssh.log[..|old(ssh.log)|] == old(ssh.log)
      ensures Echoes(ssh.log[|old(ssh.log)|], cr.spec)
      ensures Applied(result, api.o, cr.meta.annotations)
           == ApplyOutcome(codec, ssh.answer, old(ssh.log), old(api.o), cr.spec, old(cr.meta.annotations), attempts)
    {
      cr.condition := Creating;
      result := Apply(cr, attempts);
    }

    method Update(cr: Cluster, attempts: seq<Attempt<Parameters>>) returns (result: Result<(), Error>)
      requires |attempts| == STEPS
      modifies ssh, api, cr.meta
      ensures |ssh.log| == |old(ssh.log)| + 1 && ssh.log[..|old(ssh.log)|] == old(ssh.log)
      ensures Echoes(ssh.log[|old(ssh.log)|], cr.spec)
      ensures Applied(result, api.o, cr.meta.annotations)
           == ApplyOutcome(codec, ssh.answer, old(ssh.log), old(api.o), cr.spec, old(cr.meta.annotations), attempts)
    {
      result := Apply(cr, attempts);
    }

    method Delete(cr: Cluster) returns (result: Result<(), Error>)
      modifies ssh, cr
      ensures cr.condition == Deleting && cr.spec == old(cr.spec)
      ensures ssh.log == old(ssh.log) + [Uninstall("/usr/local/bin/k3s-uninstall.sh")]
      ensures result == if ssh.answer(old(ssh.log), Uninstall(SERVER_SCRIPT)).None? then Failure(CannotExecute) else Success(())
    {
      cr.condition := Deleting;
      var stdout := ssh.Execute(Uninstall(SERVER_SCRIPT));
      return if stdout.None? then Failure(CannotExecute) else Success(());
    }
  }

  // ---------------------------------------------------------------- the command

  // The install script replaces the whole configuration, so every flag is to be the spec's.
  predicate Echoes(c: Command, p: Parameters) {
    && c.Install?
    && c.install.k3sVersion == p.k3sVersion
    && c.install.k3sChannel == p.k3sChannel
    && c.install.clusterInit == p.clusterInit
    && c.install.tlsSAN == p.tlsSAN
    && c.install.disableTraefik == p.disableTraefik
    && c.install.disableServiceLB == p.disableServiceLB
    && c.install.extraArgs == p.extraArgs
    && c.install.datastoreEndpoint == p.datastoreEndpoint
  }

  lemma CommandEchoesSpec(p: Parameters, c: Command)
    ensures c == Install(InstallParamsFor(p)) <==> Echoes(c, p)
  {}

  // Two specs send one command exactly if they differ in nothing but where the host is.
  lemma SameCommandExactly(a: Parameters, b: Parameters)
    ensures Install(InstallParamsFor(a)) == Install(InstallParamsFor(b)) <==> a == b.(host := a.host, port := a.port)
  {}

  // Status: what identifies the resource and what cannot change is the spec's, the version is
  // the one read, and the other mutable fields are those of the record, or zero without one.
  lemma StatusMirrorsSpec(p: Parameters, id: string, ready: bool, version: string, last: Option<MutableFields>)
    ensures var o := StatusOf(p, id, ready, version, last);
      && o.id == id && o.ready == ready && o.k3sVersion == version
      && o.host == p.host && o.port == p.port && o.clusterInit == p.clusterInit && o.datastoreEndpoint == p.datastoreEndpoint
      && MutableFields(version, o.k3sChannel, o.tlsSAN, o.disableTraefik, o.disableServiceLB, o.extraArgs) ==
           match last
           case None => MutableFields(version, "", "", false, false, "")
           case Some(l) => l.(k3sVersion := version)
  {}

  // ---------------------------------------------------------------- applying, then reading

  // The part of an install command the record is compared on.
  function MutableOfCommand(c: Command): MutableFields
    requires c.Install?
  {
    var i := c.install;
    MutableFields(i.k3sVersion, i.k3sChannel, i.tlsSAN, i.disableTraefik, i.disableServiceLB, i.extraArgs)
  }

  // A successful Create or Update stores the mutable part of the very command it sent, and
  // leaves every other annotation and the spec to whoever else writes them.
  lemma AppliedIsRecorded(
      codec: Codec<MutableFields>, answer: (seq<Command>, Command) -> Option<string>, log: seq<Command>, o: Stored<Parameters>,
      p: Parameters, annotations: map<string, string>, attempts: seq<Attempt<Parameters>>)
    requires Faithful(codec)
    requires forall a, w :: a in attempts && w in a.meanwhile ==> SparesKey(w, LAST_APPLIED)
    ensures var done := ApplyOutcome(codec, answer, log, o, p, annotations, attempts);
      done.result.Success? ==>
        && LastApplied(codec, done.o.annotations) == Success(Some(MutableOfCommand(Install(InstallParamsFor(p)))))
        && (var key := "k3s.crossplane.io/last-applied-cluster-config";
            key in done.o.annotations && done.o.annotations[key] == codec.encode(MutableFieldsOf(p)))
        && done.o.spec == AfterAll(o, Interference(o, LAST_APPLIED, codec.encode(MutableFieldsOf(p)), attempts)).spec
        && (done.o.annotations - {LAST_APPLIED} ==
              AfterAll(o, Interference(o, LAST_APPLIED, codec.encode(MutableFieldsOf(p)), attempts)).annotations - {LAST_APPLIED})
  {
    var value := codec.encode(MutableFieldsOf(p));
    assert codec.decode(value) == Some(MutableFieldsOf(p)) && value != "";
    OnlyWriterRecords(o, LAST_APPLIED, value, attempts);
    NoLostUpdate(o, LAST_APPLIED, value, attempts);
  }

  // So the next observation of the stored object is up to date as soon as the unit is
  // ready, if and only if the mutable part of the spec is still the one applied.
  lemma AppliedIsUpToDate(
      codec: Codec<MutableFields>, answer: (seq<Command>, Command) -> Option<string>, log: seq<Command>, o: Stored<Parameters>,
      p: Parameters, annotations: map<string, string>, attempts: seq<Attempt<Parameters>>, reading: Reading)
    requires Faithful(codec) && reading.Found?
    requires forall a, w :: a in attempts && w in a.meanwhile ==> SparesKey(w, LAST_APPLIED)
    ensures var done := ApplyOutcome(codec, answer, log, o, p, annotations, attempts);
      done.result.Success? ==>
        Judge(LastApplied(codec, done.o.annotations), MutableFieldsOf(done.o.spec), reading)
          == Success(Verdict(true, reading.ready && MutableFieldsOf(done.o.spec) == MutableFieldsOf(p)))
  {
    AppliedIsRecorded(codec, answer, log, o, p, annotations, attempts);
  }
}
