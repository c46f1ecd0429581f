/**
 The decorator around a last-applied client, put together: one observation of it is a
 verdict of the ownership protocol, and one update of it sends the protocol's payload.
 */
module Composition {
  import opened Wrappers
  import opened Json
  import opened FieldPath
  import opened Eligibility
  import D = DriftDetection
  import O = Ownership
  import C = ClusterController
  import N = NodeController
  import opened Clients
  import opened K3s
  import opened Persist
  import Text

  // ---------------------------------------------------------------- flat paths

  function Flat(names: set<string>): set<Path> {
    set k | k in names :: [k]
  }

  // Substituting top-level members replaces exactly these members.
  lemma SubstitutionOfNames(spec: Fields, observed: Fields, names: set<string>)
    requires names <= observed.Keys
    ensures D.Substituted(Obj(spec), Obj(observed), Flat(names)) == Obj(spec + O.Restrict(observed, names))
  {
    var paths := Flat(names);
    assert Reports(Obj(observed), paths) && [] !in paths;
    OverlayIsObject(Some(Obj(spec)), Obj(observed), paths);
    var result := OrObject(Overlay(Some(Obj(spec)), Obj(observed), paths)).fields;
    forall k ensures Get(result, k) == Get(spec + O.Restrict(observed, names), k) {
      FlatBelow(names, k);
      assert Get(result, k) == OverlayMember(Some(Obj(spec)), observed, paths, k);
      if k in observed {
        assert Overlay(Get(spec, k), observed[k], Below(paths, k)) == if k in names then Some(observed[k]) else Get(spec, k);
      }
    }
    SameMembers(result, spec + O.Restrict(observed, names));
  }

  lemma FlatBelow(names: set<string>, k: string)
    ensures Below(Flat(names), k) == if k in names then {[]} else {}
  {
    if k in names {
      assert [k] in Flat(names) && [k][1..] == [];
    }
    forall p | p in Flat(names) && p != [] && p[0] == k ensures p[1..] == [] && k in names {}
  }

  // ---------------------------------------------------------------- a last-applied client

  // How a record is read off the annotations; None when there is none. Only this
  // controller writes it, so it always decodes.
  type Records = map<string, string> -> Option<Fields>

  function Seen(records: Records, r: D.Resource): O.Resource {
    O.Resource(Members(Some(r.forProvider)), records(r.annotations))
  }

  // The client of either kind: its observation mirrors the record and the version line
  // into status, and compares record and spec.
  function ClientSays(p: O.Profile, records: Records, host: O.Host, r: D.Resource): D.Reply {
    var seen := Seen(records, r);
    if !O.Exists(host) then D.Reply(r, false, false, false)
    else
      D.Reply(r.(atProvider := Obj(O.AtProvider(p, seen, host.version))), true, O.Matches(p, seen, O.Ready(host)), false)
  }

  // Each observation reads the host of the moment.
  function ClientReply(p: O.Profile, records: Records, hosts: nat -> O.Host): (seq<D.Call>, D.Call) -> D.Reply {
    (calls: seq<D.Call>, call: D.Call) =>
      if !call.ObserveCall? then D.Reply(D.Resource(Null, Null, map[], None, None), false, false, false)
      else ClientSays(p, records, hosts(|calls|), call.r)
  }

  // The decorator's configuration for a profile: mode enabled, one path for each name.
  predicate Configures(cfg: D.Config, p: O.Profile) {
    && cfg.mode == D.ENABLED
    && (set q | q in cfg.ignorePaths) == Flat(p.ignored)
  }

  lemma ReportedNames(cfg: D.Config, p: O.Profile, at: Fields)
    requires Configures(cfg, p)
    ensures D.Reported(Obj(at), cfg.ignorePaths) == Flat(p.ignored * at.Keys)
  {
    forall q | q in cfg.ignorePaths ensures exists k :: k in p.ignored && q == [k] {
      assert q in Flat(p.ignored);
    }
    forall k | k in p.ignored ensures [k] in cfg.ignorePaths {
      assert [k] in Flat(p.ignored);
    }
    forall k ensures GetValue(Obj(at), [k]).Found? <==> k in at {
      assert [k][1..] == [];
    }
    forall q | q in D.Reported(Obj(at), cfg.ignorePaths) ensures q in Flat(p.ignored * at.Keys) {
      var k :| k in p.ignored && q == [k];
    }
    forall q | q in Flat(p.ignored * at.Keys) ensures q in D.Reported(Obj(at), cfg.ignorePaths) {}
  }

  // What the decorator captures and substitutes is the protocol's payload.
  lemma PinnedIsPayload(kind: Kind, p: O.Profile, records: Records, cfg: D.Config, r: D.Resource, version: Option<Value>)
    requires Configures(cfg, p) && r.forProvider.Obj?
    ensures var seen := Seen(records, r);
      var capture := D.Capture(Obj(O.AtProvider(p, seen, version)), cfg.ignorePaths);
      var payload := Obj(O.Payload(p, seen, version));
      D.Pinned(kind, r, capture) ==
        if p.ignored * O.AtProvider(p, seen, version).Keys == {} || WellTyped(payload, kind.forProvider)
        then Some(r.(forProvider := payload)) else None
  {
    var seen := Seen(records, r);
    var at := O.AtProvider(p, seen, version);
    ReportedNames(cfg, p, at);
    SubstitutionOfNames(seen.spec, at, p.ignored * at.Keys);
    assert O.Restrict(at, p.ignored * at.Keys) == O.Restrict(at, p.ignored);
    if p.ignored * at.Keys != {} {
      var k :| k in p.ignored * at.Keys;
      assert [k] in Flat(p.ignored * at.Keys);
    }
  }

  // One observation through the decorator, of a unit that exists, concludes what the
  // protocol's two reads conclude of the two hosts it finds.
  lemma ObservationIsTwoReads(kind: Kind, p: O.Profile, records: Records, hosts: nat -> O.Host, cfg: D.Config, r: D.Resource)
    requires Configures(cfg, p) && r.forProvider.Obj? && O.Exists(hosts(0))
    requires WellTyped(Obj(O.Payload(p, Seen(records, r), hosts(0).version)), kind.forProvider)
    ensures var outcome := D.AskOutcome(kind, ClientReply(p, records, hosts), [], cfg, r);
      && outcome.result == Success(D.Observed(true, O.TwoReads(p, Seen(records, r), hosts(0), hosts(1))))
      && outcome.captured == [D.Captured(D.Capture(Obj(O.AtProvider(p, Seen(records, r), hosts(0).version)), cfg.ignorePaths))]
  {
    var reply := ClientReply(p, records, hosts);
    var ask := D.ObserveCall(r);
    var first := reply([], ask);
    var once := D.Conditioned(cfg, first);
    NothingConfigured(cfg, p);
    assert once.forProvider == r.forProvider && once.annotations == r.annotations;
    if D.AsksAgain(cfg, first) {
      PinnedIsPayload(kind, p, records, cfg, once, hosts(0).version);
      SecondRead(p, records, hosts, ask, once, hosts(0).version);
    }
  }

  // Of a unit that does not exist the decorator says so after one question, and captures
  // nothing.
  lemma AbsentIsReported(kind: Kind, p: O.Profile, records: Records, hosts: nat -> O.Host, cfg: D.Config, r: D.Resource)
    requires !O.Exists(hosts(0))
    ensures var outcome := D.AskOutcome(kind, ClientReply(p, records, hosts), [], cfg, r);
      outcome == D.Outcome(Success(D.Observed(false, false)), r, [D.ObserveCall(r)], [])
  {
    var none: seq<D.Call> := [];
    assert ClientReply(p, records, hosts)(none, D.ObserveCall(r)) == ClientSays(p, records, hosts(|none|), r);
  }

  // One update through the decorator, of a resource whose observation was captured, sends
  // the wrapped client the protocol's payload.
  lemma UpdateSendsPayload(
      kind: Kind, p: O.Profile, records: Records, cfg: D.Config, reply: (seq<D.Call>, D.Call) -> D.Reply,
      calls: seq<D.Call>, r: D.Resource, version: Option<Value>)
    requires D.ConfigOf(kind, r) == Success(cfg) && Configures(cfg, p) && r.forProvider.Obj?
    requires WellTyped(Obj(O.Payload(p, Seen(records, r), version)), kind.forProvider)
    ensures var capture := D.Capture(Obj(O.AtProvider(p, Seen(records, r), version)), cfg.ignorePaths);
      var outcome := D.UpdateOutcome(kind, reply, calls, Some(capture), r);
      && outcome.Sent?
      && outcome.event == D.Event.Written(r, cfg, r.(forProvider := Obj(O.Payload(p, Seen(records, r), version))))
  {
    NothingConfigured(cfg, p);
    if p.ignored == {} {
      O.NothingIgnored(p, Seen(records, r), version);
    } else {
      PinnedIsPayload(kind, p, records, cfg, r, version);
    }
  }

  lemma NothingConfigured(cfg: D.Config, p: O.Profile)
    requires Configures(cfg, p)
    ensures cfg.ignorePaths == [] <==> p.ignored == {}
  {
    if k :| k in p.ignored {
      assert [k] in Flat(p.ignored);
    }
    if cfg.ignorePaths != [] {
      assert cfg.ignorePaths[0] in Flat(p.ignored);
    }
  }

  // What the client says of the shadow.
  lemma SecondRead(p: O.Profile, records: Records, hosts: nat -> O.Host, ask: D.Call, r: D.Resource, version: Option<Value>)
    requires r.forProvider.Obj?
    ensures var seen := Seen(records, r);
      var second := ClientReply(p, records, hosts)([ask], D.ObserveCall(r.(forProvider := Obj(O.Payload(p, seen, version)))));
      && !second.failed
      && (second.upToDate <==> O.Exists(hosts(1)) && O.Matches(p, seen.(spec := O.Payload(p, seen, version)), O.Ready(hosts(1))))
  {
    var seen := Seen(records, r);
    var shadow := r.(forProvider := Obj(O.Payload(p, seen, version)));
    assert Seen(records, shadow) == seen.(spec := O.Payload(p, seen, version));
    assert ClientReply(p, records, hosts)([ask], D.ObserveCall(shadow)) == ClientSays(p, records, hosts(|[ask]|), shadow);
  }

  // The substituted spec still decodes, whatever spec and status hold, exactly where what
  // status may hold under an ignored name is something spec may hold there.
  lemma PayloadStaysTyped(kind: Kind, names: set<string>)
    requires Deref(kind.forProvider).StructType? && Deref(kind.atProvider).StructType?
    ensures (forall spec: Fields, at: Fields :: WellTyped(Obj(spec), kind.forProvider) && WellTyped(Obj(at), kind.atProvider)
               ==> WellTyped(Obj(spec + O.Restrict(at, names)), kind.forProvider))
      <==> forall k :: k in names ==> MemberFits(Deref(kind.atProvider).fields, Deref(kind.forProvider).fields, k)
  {
    var wanted, given := Deref(kind.forProvider).fields, Deref(kind.atProvider).fields;
    if forall k :: k in names ==> MemberFits(given, wanted, k) {
      forall spec: Fields, at: Fields | WellTyped(Obj(spec), kind.forProvider) && WellTyped(Obj(at), kind.atProvider)
        ensures WellTyped(Obj(spec + O.Restrict(at, names)), kind.forProvider)
      {
        FittingPayload(kind, spec, at, names);
      }
    } else {
      var k :| k in names && !MemberFits(given, wanted, k);
      var at := MisfitMember(kind, k);
      assert WellTyped(Obj(map[]), kind.forProvider);
      assert (map[] + O.Restrict(at, names))[k] == at[k];
      assert !WellTyped(Obj(map[] + O.Restrict(at, names)), kind.forProvider);
    }
  }

  lemma FittingPayload(kind: Kind, spec: Fields, at: Fields, names: set<string>)
    requires WellTyped(Obj(spec), kind.forProvider) && WellTyped(Obj(at), kind.atProvider)
    requires forall k :: k in names ==> MemberFits(Deref(kind.atProvider).fields, Deref(kind.forProvider).fields, k)
    ensures WellTyped(Obj(spec + O.Restrict(at, names)), kind.forProvider)
  {
    var wanted, given := Deref(kind.forProvider).fields, Deref(kind.atProvider).fields;
    var payload := spec + O.Restrict(at, names);
    forall k | k in payload ensures Dominant(wanted, k).Some? && WellTyped(payload[k], Dominant(wanted, k).value) {
      if k in at && k in names {
        assert MemberFits(given, wanted, k);
        FittingValue(at[k], Dominant(given, k).value, Dominant(wanted, k).value);
      }
    }
  }

  // A status that holds something under the name that spec cannot hold there.
  lemma MisfitMember(kind: Kind, k: string) returns (at: Fields)
    requires Deref(kind.forProvider).StructType? && Deref(kind.atProvider).StructType?
    requires !MemberFits(Deref(kind.atProvider).fields, Deref(kind.forProvider).fields, k)
    ensures WellTyped(Obj(at), kind.atProvider) && k in at
    ensures var wanted := Dominant(Deref(kind.forProvider).fields, k); wanted.None? || !WellTyped(at[k], wanted.value)
  {
    var wanted, given := Dominant(Deref(kind.forProvider).fields, k), Dominant(Deref(kind.atProvider).fields, k).value;
    var member := Sample(given);
    if wanted.Some? {
      member := MisfitValue(given, wanted.value);
    }
    at := map[k := member];
    assert at[k] == member;
  }

  // That holds of a name under which the walk finds the written field in both, and the same
  // type.
  lemma MirroredMemberStaysTyped(kind: Kind, k: string)
    requires StepsDominate(kind.forProvider, [k]) && StepsDominate(kind.atProvider, [k])
    requires FieldType(kind.forProvider, [k]) == FieldType(kind.atProvider, [k])
    ensures MemberFits(Deref(kind.atProvider).fields, Deref(kind.forProvider).fields, k)
  {
    OneSegment(kind.forProvider, k);
    OneSegment(kind.atProvider, k);
    FitsItself(FieldType(kind.atProvider, [k]).value);
  }

  lemma OneSegment(t: GoType, k: string)
    requires StepsDominate(t, [k])
    ensures Deref(t).StructType? && Dominant(Deref(t).fields, k) == FieldType(t, [k]) != None
  {
    assert [k][1..] == [];
    SameSteps(t, [k]);
  }

  // ---------------------------------------------------------------- the host

  // What the client parses off the probe is the state the protocol speaks of.
  lemma HostIsWhatTheProbeSays(h: O.Host, trailing: string)
    requires h.load != "" && Token(h.load) && Token(h.active) && Text.Blank(trailing)
    ensures var probe := ParseServiceProbe(ProbeReply(h.load, h.active, trailing));
      (probe.Exists() <==> O.Exists(h)) && (probe.Ready() <==> O.Ready(h))
  {
    ProbeVerdict(h.load, h.active, trailing);
  }

  // A host of the protocol, as a probe of its unit is answered.
  predicate Shows(
      answer: (seq<Command>, Command) -> Option<string>, log: seq<Command>, unit: string, h: O.Host, trailing: string)
  {
    Answers(answer, log, unit, h.load, h.active, trailing)
  }

  // ---------------------------------------------------------------- the Cluster kind

  // The JSON name and value of each compared field of a Cluster.
  const COMPARED: set<string> := {"k3sVersion", "k3sChannel", "tlsSAN", "disableTraefik", "disableServiceLB", "extraArgs"}
  const MIRRORED: set<string> := {"k3sChannel", "tlsSAN", "disableTraefik", "disableServiceLB", "extraArgs"}

  function CompareValue(m: C.MutableFields, name: string): Value
    requires name in COMPARED
  {
    if name == "k3sVersion" then Str(m.k3sVersion)
    else if name == "k3sChannel" then Str(m.k3sChannel)
    else if name == "tlsSAN" then Str(m.tlsSAN)
    else if name == "disableTraefik" then Bool(m.disableTraefik)
    else if name == "disableServiceLB" then Bool(m.disableServiceLB)
    else Str(m.extraArgs)
  }

  predicate Zero(v: Value) {
    v == Str("") || v == Bool(false)
  }

  // The JSON projection, without zero values.
  function Paved(m: C.MutableFields): Fields {
    map k | k in COMPARED && !Zero(CompareValue(m, k)) :: CompareValue(m, k)
  }

  function PavedRecord(last: Option<C.MutableFields>): Option<Fields> {
    match last
    case None => None
    case Some(m) => Some(Paved(m))
  }

  function PavedStatus(o: C.Observation): Fields {
    Paved(C.MutableFields(o.k3sVersion, o.k3sChannel, o.tlsSAN, o.disableTraefik, o.disableServiceLB, o.extraArgs))
  }

  function ClusterProfile(ignored: set<string>): O.Profile {
    O.Profile(COMPARED, MIRRORED, ignored)
  }

  // Comparing projections is comparing the structs.
  lemma PavedIsInjective(a: C.MutableFields, b: C.MutableFields)
    ensures Paved(a) == Paved(b) <==> a == b
  {
    if Paved(a) == Paved(b) {
      forall k | k in COMPARED ensures CompareValue(a, k) == CompareValue(b, k) {
        assert k in Paved(a) <==> k in Paved(b);
      }
      assert CompareValue(a, "k3sVersion") == CompareValue(b, "k3sVersion");
      assert CompareValue(a, "k3sChannel") == CompareValue(b, "k3sChannel");
      assert CompareValue(a, "tlsSAN") == CompareValue(b, "tlsSAN");
      assert CompareValue(a, "disableTraefik") == CompareValue(b, "disableTraefik");
      assert CompareValue(a, "disableServiceLB") == CompareValue(b, "disableServiceLB");
      assert CompareValue(a, "extraArgs") == CompareValue(b, "extraArgs");
    }
  }

  // What the protocol's observation holds at a name.
  function Expected(record: Option<Fields>, version: Option<Value>, k: string): Option<Value> {
    if k == "k3sVersion" then version
    else if k in MIRRORED && record.Some? then Get(record.value, k)
    else None
  }

  lemma ExpectedMember(spec: Fields, record: Option<Fields>, version: Option<Value>, k: string)
    ensures Get(O.AtProvider(ClusterProfile({}), O.Resource(spec, record), version), k) == Expected(record, version, k)
  {}

  lemma PavedMember(m: C.MutableFields, k: string)
    ensures Get(Paved(m), k) == if k in COMPARED && !Zero(CompareValue(m, k)) then Some(CompareValue(m, k)) else None
  {}

  function VersionRead(reading: Reading): Option<Value>
    requires reading.Found?
  {
    if reading.version == "" then None else Some(Str(reading.version))
  }

  // The compared part of a status: the version line read and the recorded values, zero
  // where nothing was recorded.
  function Shown(reading: Reading, last: Option<C.MutableFields>): C.MutableFields
    requires reading.Found?
  {
    match last
    case None => C.MutableFields(reading.version, "", "", false, false, "")
    case Some(m) => m.(k3sVersion := reading.version)
  }

  lemma StatusMember(reading: Reading, last: Option<C.MutableFields>, k: string)
    requires reading.Found?
    ensures Get(Paved(Shown(reading, last)), k) == Expected(PavedRecord(last), VersionRead(reading), k)
  {
    PavedMember(Shown(reading, last), k);
    if last.Some? {
      PavedMember(last.value, k);
    }
  }

  lemma StatusMembers(reading: Reading, last: Option<C.MutableFields>, spec: Fields)
    requires reading.Found?
    ensures Paved(Shown(reading, last))
         == O.AtProvider(ClusterProfile({}), O.Resource(spec, PavedRecord(last)), VersionRead(reading))
  {
    var at := O.AtProvider(ClusterProfile({}), O.Resource(spec, PavedRecord(last)), VersionRead(reading));
    forall k ensures Get(Paved(Shown(reading, last)), k) == Get(at, k) {
      ExpectedMember(spec, PavedRecord(last), VersionRead(reading), k);
      StatusMember(reading, last, k);
    }
    SameMembers(Paved(Shown(reading, last)), at);
  }

  // The verdict of the Cluster client is the protocol's comparison, and what it puts in
  // status is the protocol's observation.
  lemma ClusterClientFollowsProtocol(
      codec: Codec<C.MutableFields>, params: C.Parameters, annotations: map<string, string>, reading: Reading,
      ignored: set<string>)
    requires reading.Found? && C.LastApplied(codec, annotations).Success?
    ensures var last := C.LastApplied(codec, annotations).value;
      var seen := O.Resource(Paved(C.MutableFieldsOf(params)), PavedRecord(last));
      && Judge(C.LastApplied(codec, annotations), C.MutableFieldsOf(params), reading)
           == Success(Verdict(true, O.Matches(ClusterProfile(ignored), seen, reading.ready)))
      && PavedStatus(C.StatusOf(params, params.host, reading.ready, reading.version, last))
           == O.AtProvider(ClusterProfile(ignored), seen, VersionRead(reading))
  {
    var last := C.LastApplied(codec, annotations).value;
    PavedIsCompared(C.MutableFieldsOf(params));
    if last.Some? {
      PavedIsInjective(last.value, C.MutableFieldsOf(params));
    }
    StatusMembers(reading, last, Paved(C.MutableFieldsOf(params)));
  }

  lemma PavedIsCompared(m: C.MutableFields)
    ensures O.Restrict(Paved(m), COMPARED) == Paved(m)
  {}

  // ---------------------------------------------------------------- the Node kind

  // A Node has four of these fields. The other two are zero for it, and zero fields leave
  // no member.
  function AsCluster(m: N.MutableFields): C.MutableFields {
    C.MutableFields(m.k3sVersion, m.k3sChannel, m.tlsSAN, false, false, m.extraArgs)
  }

  function NodePaved(m: N.MutableFields): Fields {
    Paved(AsCluster(m))
  }

  function NodePavedRecord(last: Option<N.MutableFields>): Option<Fields> {
    match last
    case None => None
    case Some(m) => Some(NodePaved(m))
  }

  function NodePavedStatus(o: N.Observation): Fields {
    NodePaved(N.MutableFields(o.k3sVersion, o.k3sChannel, o.extraArgs, o.tlsSAN))
  }

  const NODE_COMPARED: set<string> := {"k3sVersion", "k3sChannel", "tlsSAN", "extraArgs"}
  const NODE_MIRRORED: set<string> := {"k3sChannel", "tlsSAN", "extraArgs"}

  function NodeProfile(ignored: set<string>): O.Profile {
    O.Profile(NODE_COMPARED, NODE_MIRRORED, ignored)
  }

  lemma NodePavedIsInjective(a: N.MutableFields, b: N.MutableFields)
    ensures NodePaved(a) == NodePaved(b) <==> a == b
  {
    PavedIsInjective(AsCluster(a), AsCluster(b));
  }

  lemma NodePavedIsCompared(m: N.MutableFields)
    ensures NodePaved(m).Keys <= NODE_COMPARED && O.Restrict(NodePaved(m), NODE_COMPARED) == NodePaved(m)
  {
    forall k | k in NodePaved(m) ensures k in NODE_COMPARED {
      PavedMember(AsCluster(m), k);
    }
  }

  lemma NodeClientFollowsProtocol(
      codec: Codec<N.MutableFields>, params: N.Parameters, role: string, annotations: map<string, string>,
      reading: Reading, ignored: set<string>)
    requires reading.Found? && N.LastApplied(codec, annotations).Success?
    ensures var last := N.LastApplied(codec, annotations).value;
      var seen := O.Resource(NodePaved(N.MutableFieldsOf(params)), NodePavedRecord(last));
      && Judge(N.LastApplied(codec, annotations), N.MutableFieldsOf(params), reading)
           == Success(Verdict(true, O.Matches(NodeProfile(ignored), seen, reading.ready)))
      && NodePavedStatus(N.StatusOf(params, params.host, role, reading.ready, reading.version, last))
           == O.AtProvider(NodeProfile(ignored), seen, VersionRead(reading))
  {
    var last := N.LastApplied(codec, annotations).value;
    var spec := NodePaved(N.MutableFieldsOf(params));
    NodePavedIsCompared(N.MutableFieldsOf(params));
    if last.Some? {
      NodePavedIsInjective(last.value, N.MutableFieldsOf(params));
      NodePavedIsCompared(last.value);
      SameMirror(NodePaved(last.value));
      StatusMembers(reading, Some(AsCluster(last.value)), spec);
    } else {
      StatusMembers(reading, None, spec);
    }
  }

  // Of a Node's record the same names are mirrored either way.
  lemma SameMirror(record: Fields)
    requires record.Keys <= NODE_COMPARED
    ensures O.Restrict(record, NODE_MIRRORED) == O.Restrict(record, MIRRORED)
  {}

  // ---------------------------------------------------------------- whole observations

  // What either client concludes of a host: that there is no unit exactly if there is none,
  // whatever the record, and of an existing one what the protocol's comparison says.
  lemma ClusterVerdictIsProtocols(
      codec: Codec<C.MutableFields>, params: C.Parameters, annotations: map<string, string>, h: O.Host,
      answer: (seq<Command>, Command) -> Option<string>, log: seq<Command>, trailing: string, ignored: set<string>)
    requires Shows(answer, log, "k3s", h, trailing) && C.LastApplied(codec, annotations).Success?
    ensures var seen := O.Resource(Paved(C.MutableFieldsOf(params)), PavedRecord(C.LastApplied(codec, annotations).value));
      Judge(C.LastApplied(codec, annotations), C.MutableFieldsOf(params), ReadUnit(answer, log, "k3s")) ==
        Success(Verdict(O.Exists(h), O.Exists(h) && O.Matches(ClusterProfile(ignored), seen, O.Ready(h))))
  {
    ReadingOfHost(answer, log, "k3s", h.load, h.active, trailing);
    if O.Exists(h) {
      ClusterClientFollowsProtocol(codec, params, annotations, ReadUnit(answer, log, "k3s"), ignored);
    }
  }

  lemma NodeVerdictIsProtocols(
      codec: Codec<N.MutableFields>, params: N.Parameters, role: string, annotations: map<string, string>, h: O.Host,
      answer: (seq<Command>, Command) -> Option<string>, log: seq<Command>, trailing: string, ignored: set<string>)
    requires Shows(answer, log, ServiceNameForRole(role), h, trailing) && N.LastApplied(codec, annotations).Success?
    ensures var seen := O.Resource(NodePaved(N.MutableFieldsOf(params)), NodePavedRecord(N.LastApplied(codec, annotations).value));
      Judge(N.LastApplied(codec, annotations), N.MutableFieldsOf(params), ReadUnit(answer, log, ServiceNameForRole(role))) ==
        Success(Verdict(O.Exists(h), O.Exists(h) && O.Matches(NodeProfile(ignored), seen, O.Ready(h))))
  {
    ReadingOfHost(answer, log, ServiceNameForRole(role), h.load, h.active, trailing);
    if O.Exists(h) {
      NodeClientFollowsProtocol(codec, params, role, annotations, ReadUnit(answer, log, ServiceNameForRole(role)), ignored);
    }
  }

  // ---------------------------------------------------------------- applying and recording

  // How the stored object of a kind stands for a state of the protocol.
  datatype View<!M, !S> = View(codec: Codec<M>, key: string, fieldsOf: S -> M, paved: M -> Fields) {
    function RecordOf(annotations: map<string, string>): Option<Fields> {
      match ReadRecord(codec, annotations, key)
      case Success(Some(m)) => Some(paved(m))
      case _ => None
    }

    predicate Stands(o: Stored<S>, s: O.State) {
      s.spec == paved(fieldsOf(o.spec)) && s.record == RecordOf(o.annotations)
    }
  }

  ghost predicate Exact<M(!new), S>(view: View<M, S>, p: O.Profile) {
    && Faithful(view.codec)
    && (forall m :: O.Compared(p, view.paved(m)) == view.paved(m))
    && (forall a, b :: view.paved(a) == view.paved(b) ==> a == b)
  }

  // The annotation as this controller writes it.
  ghost predicate OwnRecord<M(!new)>(codec: Codec<M>, raw: string) {
    raw == "" || exists m :: raw == codec.encode(m)
  }

  lemma BothKindsAreExact(
      cluster: Codec<C.MutableFields>, node: Codec<N.MutableFields>, ignored: set<string>)
    requires Faithful(cluster) && Faithful(node)
    ensures Exact(ClusterView(cluster), ClusterProfile(ignored)) && Exact(NodeView(node), NodeProfile(ignored))
  {
    forall m: C.MutableFields ensures O.Compared(ClusterProfile(ignored), Paved(m)) == Paved(m) {
      PavedIsCompared(m);
    }
    forall a: C.MutableFields, b: C.MutableFields | Paved(a) == Paved(b) ensures a == b {
      PavedIsInjective(a, b);
    }
    forall m: N.MutableFields ensures O.Compared(NodeProfile(ignored), NodePaved(m)) == NodePaved(m) {
      NodePavedIsCompared(m);
    }
    forall a: N.MutableFields, b: N.MutableFields | NodePaved(a) == NodePaved(b) ensures a == b {
      NodePavedIsInjective(a, b);
    }
  }

  function ClusterView(codec: Codec<C.MutableFields>): View<C.MutableFields, C.Parameters> {
    View(codec, C.LAST_APPLIED, C.MutableFieldsOf, Paved)
  }

  function NodeView(codec: Codec<N.MutableFields>): View<N.MutableFields, N.Parameters> {
    View(codec, N.LAST_APPLIED, N.MutableFieldsOf, NodePaved)
  }

  // The steps of the protocol one Create or Update comes to. While the record is written,
  // other clients may have edited the spec.
  function ApplySteps(answered: bool, host: O.Host, spec: Fields, ok: bool, landed: bool): seq<O.Action> {
    if !answered then [O.ExecuteFails(host)]
    else [O.ExecuteOk(host), O.EditSpec(spec), if ok then O.RecordOk else O.RecordFails(landed)]
  }

  // One apply of either kind, from a state in which it is due: the stored object it leaves
  // stands for the state these steps lead to, and it was written as often as they write it.
  lemma ApplyIsProtocolSteps<M(!new), S>(
      view: View<M, S>, p: O.Profile, answered: bool, o: Stored<S>, fields: M, annotations: map<string, string>,
      attempts: seq<Attempt<S>>, s: O.State, host: O.Host)
    requires Exact(view, p) && OwnRecord(view.codec, Annotation(o.annotations, view.key))
    requires forall a, w :: a in attempts && w in a.meanwhile ==> SparesKey(w, view.key)
    requires view.Stands(o, s) && O.Sending(s.phase) && O.Outgoing(s.phase) == view.paved(fields)
    requires answered ==> O.Exists(host) && host.config == Some(view.paved(fields))
    ensures var value := view.codec.encode(fields);
      var run, done := Run(o, view.key, value, attempts), AppliedBy(answered, o, view.key, value, annotations, attempts);
      var steps := ApplySteps(answered, host, view.paved(view.fieldsOf(done.o.spec)), done.result.Success?, run.puts == 1);
      var next := O.Run(p, s, steps);
      && next.Some? && next.value.phase.Idle? && view.Stands(done.o, next.value)
      && next.value.puts == s.puts + if answered then run.puts else 0
  {
    var value := view.codec.encode(fields);
    var run, done := Run(o, view.key, value, attempts), AppliedBy(answered, o, view.key, value, annotations, attempts);
    var spec := view.paved(view.fieldsOf(done.o.spec));
    StepsRun(p, s, answered, host, spec, done.result.Success?, run.puts == 1);
    if answered {
      OnlyWriterRecords(o, view.key, value, attempts);
      OnlyWriterPuts(o, view.key, value, attempts);
      SameRecord(view, p, o.annotations, fields);
      RecordAfter(view, o.annotations, done.o.annotations, fields);
    }
  }

  // Where these steps lead.
  lemma StepsRun(
      p: O.Profile, s: O.State, answered: bool, host: O.Host, spec: Fields, ok: bool, landed: bool)
    requires O.Sending(s.phase) && (answered ==> O.Exists(host) && host.config == Some(O.Outgoing(s.phase)))
    ensures var next := O.Run(p, s, ApplySteps(answered, host, spec, ok, landed));
      var record := Some(O.Compared(p, O.Outgoing(s.phase)));
      && next.Some? && next.value.phase.Idle?
      && next.value.spec == (if answered then spec else s.spec)
      && next.value.record == (if answered && (ok || landed) then record else s.record)
      && next.value.puts == s.puts + if answered && (ok || landed) && s.record != record then 1 else 0
  {
    var steps := ApplySteps(answered, host, spec, ok, landed);
    var s1 := O.Step(p, s, steps[0]).value;
    if answered {
      var s2 := O.Step(p, s1, steps[1]).value;
      var s3 := O.Step(p, s2, steps[2]).value;
      O.RunTakes(p, s, steps, [s, s1, s2, s3]);
    } else {
      O.RunTakes(p, s, steps, [s, s1]);
    }
  }

  // The record says what was applied exactly when the annotation holds its text.
  lemma SameRecord<M(!new), S>(view: View<M, S>, p: O.Profile, annotations: map<string, string>, fields: M)
    requires Exact(view, p) && OwnRecord(view.codec, Annotation(annotations, view.key))
    ensures view.RecordOf(annotations) == Some(view.paved(fields))
      <==> Annotation(annotations, view.key) == view.codec.encode(fields)
  {
    var raw := Annotation(annotations, view.key);
    assert view.codec.decode(view.codec.encode(fields)) == Some(fields) && view.codec.encode(fields) != "";
    if raw != "" {
      var m :| raw == view.codec.encode(m);
      assert view.codec.decode(view.codec.encode(m)) == Some(m);
    }
  }

  lemma RecordAfter<M(!new), S>(
      view: View<M, S>, before: map<string, string>, after: map<string, string>, fields: M)
    requires Faithful(view.codec)
    requires Annotation(after, view.key) in [Annotation(before, view.key), view.codec.encode(fields)]
    ensures view.RecordOf(after) ==
      if Annotation(after, view.key) == view.codec.encode(fields) then Some(view.paved(fields)) else view.RecordOf(before)
  {
    assert view.codec.decode(view.codec.encode(fields)) == Some(fields) && view.codec.encode(fields) != "";
  }
}
