/**
 The drift-ownership protocol over whole runs: a controller that reconciles one resource
 in separate steps, while its spec is edited, its host changes and its calls fail.

 Configurations are the JSON projections of the Go structs, which leave out zero values:
 a name is present exactly when its field is not zero.
 */
module Ownership {
  import opened Wrappers
  import opened Json

  // ---------------------------------------------------------------- one resource

  // What a kind compares, what of it the record is mirrored into status for, and which
  // names the resource hands over. k3sVersion is compared but read from the host instead.
  datatype Profile = Profile(compared: set<string>, mirrored: set<string>, ignored: set<string>)

  const K3S_VERSION := "k3sVersion"

  ghost predicate WellFormed(p: Profile) {
    p.mirrored <= p.compared && K3S_VERSION in p.compared && K3S_VERSION !in p.mirrored
  }

  // The names under ignore are ones the record is mirrored for.
  ghost predicate IgnoresMirrored(p: Profile) {
    WellFormed(p) && p.ignored <= p.mirrored
  }

  function Restrict(m: Fields, names: set<string>): Fields {
    map k | k in m && k in names :: m[k]
  }

  // The copy of the resource a reconcile works from: spec, and the last-applied record.
  datatype Resource = Resource(spec: Fields, record: Option<Fields>)

  // The part of a configuration the record holds.
  function Compared(p: Profile, config: Fields): Fields {
    Restrict(config, p.compared)
  }

  // The compared part of status.atProvider after an observation that read this version.
  function AtProvider(p: Profile, r: Resource, version: Option<Value>): Fields {
    (if r.record.Some? then Restrict(r.record.value, p.mirrored) else map[])
    + (if version.Some? then map[K3S_VERSION := version.value] else map[])
  }

  // The spec with what was observed at the ignored names.
  function Carry(spec: Fields, observed: Fields): Fields {
    spec + observed
  }

  function Captured(p: Profile, r: Resource, version: Option<Value>): Fields {
    Restrict(AtProvider(p, r, version), p.ignored)
  }

  // The configuration an Update of this resource sends.
  function Payload(p: Profile, r: Resource, version: Option<Value>): Fields {
    Carry(r.spec, Captured(p, r, version))
  }

  // What one read of the client reports: ready, and the record says what the spec says.
  predicate Matches(p: Profile, r: Resource, ready: bool) {
    ready && r.record == Some(Compared(p, r.spec))
  }

  // ---------------------------------------------------------------- the host

  // A unit as systemd reports it, the version line the binary prints, and the
  // configuration of the last install or join that was run to its end.
  datatype Host = Host(load: string, active: string, version: Option<Value>, config: Option<Fields>)

  predicate Exists(h: Host) {
    h.load != "" && h.load != "not-found"
  }

  predicate Ready(h: Host) {
    h.active == "active"
  }

  // ---------------------------------------------------------------- states and steps

  datatype Phase =
    | Idle
    | Fetched(r: Resource)
    | Drifting(r: Resource, captured: Fields, first: Host)
    | MustCreate(r: Resource)
    | MustUpdate(r: Resource, payload: Fields)
    | Applied(create: bool, r: Resource, payload: Fields)

  // What the controller did, oldest first. A verdict is kept with the hosts its first and
  // its last read found.
  datatype Entry =
    | Sent(create: bool, config: Fields, ok: bool)
    | Judged(r: Resource, upToDate: bool, first: Host, last: Host)

  datatype State = State(spec: Fields, record: Option<Fields>, puts: nat, host: Host, phase: Phase, log: seq<Entry>)

  datatype Action =
    // the controller
    | Fetch
    | Observe
    | ObserveAgain
    | ExecuteOk(host: Host)
    | ExecuteFails(host: Host)
    | RecordOk
    | RecordFails(landed: bool)
    | Abort
    // everything else
    | EditSpec(spec: Fields)
    | HostMoves(load: string, active: string, version: Option<Value>)
    | Outsider(host: Host)

  function Judge(s: State, r: Resource, first: Host, upToDate: bool, payload: Fields): State {
    s.(phase := if upToDate then Idle else MustUpdate(r, payload), log := s.log + [Judged(r, upToDate, first, s.host)])
  }

  predicate Sending(phase: Phase) {
    phase.MustCreate? || phase.MustUpdate?
  }

  // A Create sends the spec as it is: the seed of the ignored fields.
  function Outgoing(phase: Phase): Fields
    requires Sending(phase)
  {
    if phase.MustCreate? then phase.r.spec else phase.payload
  }

  // None when the action does not apply in this state.
  function Step(p: Profile, s: State, a: Action): Option<State> {
    match a
    case Fetch =>
      if s.phase.Idle? then Some(s.(phase := Fetched(Resource(s.spec, s.record)))) else None
    case Observe =>
      if !s.phase.Fetched? then None
      else
        var r := s.phase.r;
        var captured := Captured(p, r, s.host.version);
        if !Exists(s.host) then Some(s.(phase := MustCreate(r)))
        else if Matches(p, r, Ready(s.host)) then Some(Judge(s, r, s.host, true, r.spec))
        else if p.ignored == {} then Some(Judge(s, r, s.host, false, r.spec))
        else Some(s.(phase := Drifting(r, captured, s.host)))
    case ObserveAgain =>
      if !s.phase.Drifting? then None
      else
        var r := s.phase.r;
        var pinned := r.(spec := Carry(r.spec, s.phase.captured));
        Some(Judge(s, r, s.phase.first, Exists(s.host) && Matches(p, pinned, Ready(s.host)), pinned.spec))
    case ExecuteOk(host) =>
      if !Sending(s.phase) || !Exists(host) || host.config != Some(Outgoing(s.phase)) then None
      else
        var create := s.phase.MustCreate?;
        Some(s.(host := host, phase := Applied(create, s.phase.r, Outgoing(s.phase)),
                log := s.log + [Sent(create, Outgoing(s.phase), true)]))
    case ExecuteFails(host) =>
      if !Sending(s.phase) then None
      else Some(s.(host := host, phase := Idle, log := s.log + [Sent(s.phase.MustCreate?, Outgoing(s.phase), false)]))
    case RecordOk =>
      if s.phase.Applied? then Some(Recorded(p, s)) else None
    case RecordFails(landed) =>
      if s.phase.Applied? then Some(if landed then Recorded(p, s) else s.(phase := Idle)) else None
    case Abort =>
      if s.phase.Idle? || s.phase.Applied? then None else Some(s.(phase := Idle))
    case EditSpec(spec) =>
      Some(s.(spec := spec))
    case HostMoves(load, active, version) =>
      Some(s.(host := s.host.(load := load, active := active, version := version)))
    case Outsider(host) =>
      Some(s.(host := host))
  }

  // The record as the persist loop leaves it: an equal one is not written again.
  function Recorded(p: Profile, s: State): State
    requires s.phase.Applied?
  {
    var record := Some(Compared(p, s.phase.payload));
    s.(record := record, puts := if s.record == record then s.puts else s.puts + 1, phase := Idle)
  }

  function Run(p: Profile, s: State, actions: seq<Action>): Option<State>
    decreases |actions|
  {
    if actions == [] then Some(s)
    else
      match Step(p, s, actions[0])
      case None => None
      case Some(next) => Run(p, next, actions[1..])
  }

  // ---------------------------------------------------------------- the invariant

  // While a reconcile is under way its copy holds the stored record, since nobody else
  // writes it, and what it is about to send or has just sent is what that copy calls for.
  ghost predicate Inv(p: Profile, s: State) {
    match s.phase
    case Idle => true
    case Fetched(r) => r.record == s.record
    case Drifting(r, captured, first) =>
      r.record == s.record && captured == Captured(p, r, None) && Exists(first) && !Matches(p, r, Ready(first)) && p.ignored != {}
    case MustCreate(r) => r.record == s.record
    case MustUpdate(r, payload) => r.record == s.record && payload == Payload(p, r, None)
    case Applied(create, r, payload) =>
      r.record == s.record && payload == if create then r.spec else Payload(p, r, None)
  }

  lemma VersionDoesNotMatter(p: Profile, r: Resource, version: Option<Value>)
    requires IgnoresMirrored(p)
    ensures Captured(p, r, version) == Captured(p, r, None)
  {}

  lemma NothingIgnored(p: Profile, r: Resource, version: Option<Value>)
    requires p.ignored == {}
    ensures Payload(p, r, version) == r.spec
  {
    assert Captured(p, r, version) == map[];
  }

  lemma StepKeepsInv(p: Profile, s: State, a: Action)
    requires IgnoresMirrored(p) && Inv(p, s) && Step(p, s, a).Some?
    ensures Inv(p, Step(p, s, a).value)
  {
    if a.Observe? {
      VersionDoesNotMatter(p, s.phase.r, s.host.version);
      if p.ignored == {} {
        NothingIgnored(p, s.phase.r, None);
      }
    }
  }

  lemma {:induction false} RunKeepsInv(p: Profile, s: State, actions: seq<Action>)
    requires IgnoresMirrored(p) && Inv(p, s) && Run(p, s, actions).Some?
    ensures Inv(p, Run(p, s, actions).value)
    decreases |actions|
  {
    if actions != [] {
      StepKeepsInv(p, s, actions[0]);
      RunKeepsInv(p, Step(p, s, actions[0]).value, actions[1..]);
    }
  }

  // ---------------------------------------------------------------- logs of runs

  lemma StepLogs(p: Profile, s: State, a: Action)
    requires Step(p, s, a).Some?
    ensures s.log <= Step(p, s, a).value.log
  {}

  lemma {:induction false} RunLogs(p: Profile, s: State, actions: seq<Action>)
    requires Run(p, s, actions).Some?
    ensures s.log <= Run(p, s, actions).value.log
    decreases |actions|
  {
    if actions != [] {
      StepLogs(p, s, actions[0]);
      RunLogs(p, Step(p, s, actions[0]).value, actions[1..]);
    }
  }

  // What was logged between two states.
  function Since(s: State, later: State): seq<Entry> {
    if s.log <= later.log then later.log[|s.log|..] else []
  }

  lemma SinceSplits(s: State, middle: State, later: State)
    requires s.log <= middle.log <= later.log
    ensures Since(s, later) == Since(s, middle) + Since(middle, later)
  {}

  ghost predicate All(entries: seq<Entry>, good: Entry -> bool) {
    forall i :: 0 <= i < |entries| ==> good(entries[i])
  }

  lemma AllSplits(a: seq<Entry>, b: seq<Entry>, good: Entry -> bool)
    ensures All(a + b, good) <==> All(a, good) && All(b, good)
  {
    if All(a + b, good) {
      assert forall i :: 0 <= i < |a| ==> (a + b)[i] == a[i];
      assert forall i :: 0 <= i < |b| ==> (a + b)[|a| + i] == b[i];
    }
  }

  // ---------------------------------------------------------------- carry-forward

  function IsNoCreate(): Entry -> bool {
    (e: Entry) => e.Sent? ==> !e.create
  }

  // The configuration keeps what the record holds under the ignored names. A name whose
  // recorded value is zero is not in the record, and nothing is kept for it.
  predicate Keeps(p: Profile, record: Option<Fields>, config: Fields) {
    record.Some? ==> forall k :: k in p.ignored && k in record.value ==> k in config && config[k] == record.value[k]
  }

  function SendsKept(p: Profile, record: Option<Fields>): Entry -> bool {
    (e: Entry) => e.Sent? ==> Keeps(p, record, e.config)
  }

  lemma PayloadKeeps(p: Profile, r: Resource)
    requires IgnoresMirrored(p)
    ensures Keeps(p, r.record, Payload(p, r, None))
  {}

  predicate Reseeding(phase: Phase) {
    phase.Applied? && phase.create
  }

  predicate RecordKept(p: Profile, before: Option<Fields>, after: Option<Fields>) {
    before.Some? ==> after.Some? && Keeps(p, before, after.value)
  }

  lemma StepCarries(p: Profile, s: State, a: Action)
    requires IgnoresMirrored(p) && Inv(p, s) && Step(p, s, a).Some? && !Reseeding(s.phase)
    requires All(Since(s, Step(p, s, a).value), IsNoCreate())
    ensures var next := Step(p, s, a).value;
      !Reseeding(next.phase) && RecordKept(p, s.record, next.record) && All(Since(s, next), SendsKept(p, s.record))
  {
    var next := Step(p, s, a).value;
    StepLogs(p, s, a);
    if next.log != s.log {
      assert Since(s, next) == [next.log[|s.log|]];
      assert IsNoCreate()(Since(s, next)[0]);
    }
    if !s.phase.Idle? {
      PayloadKeeps(p, s.phase.r);
    }
  }

  // Over any run without a Create, whatever happens to spec, host and calls: a non-zero
  // recorded value of an ignored field never changes, in the record or in any command.
  lemma {:induction false} CarryForward(p: Profile, s: State, actions: seq<Action>)
    requires IgnoresMirrored(p) && Inv(p, s) && Run(p, s, actions).Some? && !Reseeding(s.phase)
    requires All(Since(s, Run(p, s, actions).value), IsNoCreate())
    ensures var end := Run(p, s, actions).value;
      RecordKept(p, s.record, end.record) && All(Since(s, end), SendsKept(p, s.record))
    decreases |actions|
  {
    if actions != [] {
      var next := Step(p, s, actions[0]).value;
      var end := Run(p, s, actions).value;
      StepLogs(p, s, actions[0]);
      RunLogs(p, next, actions[1..]);
      SinceSplits(s, next, end);
      AllSplits(Since(s, next), Since(next, end), IsNoCreate());
      StepCarries(p, s, actions[0]);
      StepKeepsInv(p, s, actions[0]);
      CarryForward(p, next, actions[1..]);
      forall i | 0 <= i < |Since(next, end)| ensures SendsKept(p, s.record)(Since(next, end)[i]) {
        assert SendsKept(p, next.record)(Since(next, end)[i]);
      }
      AllSplits(Since(s, next), Since(next, end), SendsKept(p, s.record));
    }
  }

  // ---------------------------------------------------------------- the verdict

  // What the two reads of one observation conclude, the second made only if the first
  // reports drift and something is ignored.
  predicate TwoReads(p: Profile, r: Resource, first: Host, second: Host) {
    if Matches(p, r, Ready(first)) then true
    else if p.ignored == {} then false
    else Exists(second) && Matches(p, r.(spec := Payload(p, r, first.version)), Ready(second))
  }

  // What an observation is to conclude, field by field: the unit is ready, a record is
  // there, it says what the spec says off the ignored names, and on an ignored name it is
  // silent only if the spec is too.
  predicate UpToDate(p: Profile, r: Resource, h: Host) {
    && Ready(h)
    && r.record.Some?
    && Compared(p, r.record.value) == r.record.value
    && forall k :: k in p.compared ==>
         if k in p.ignored then k !in r.record.value ==> k !in r.spec
         else Get(r.record.value, k) == Get(r.spec, k)
  }

  // A record that says what the spec says calls for the spec.
  lemma MatchingRecordCallsForSpec(p: Profile, r: Resource, config: Fields)
    requires IgnoresMirrored(p) && config == Payload(p, r, None)
    ensures r.record == Some(Compared(p, r.spec)) ==> config == r.spec
    ensures p.ignored == {} ==> config == r.spec
  {
    if r.record == Some(Compared(p, r.spec)) {
      forall k ensures Get(config, k) == Get(r.spec, k) {}
      SameMembers(config, r.spec);
    }
    if p.ignored == {} {
      NothingIgnored(p, r, None);
    }
  }

  // Field by field, what it means that the record is the payload.
  lemma PinnedMatches(p: Profile, r: Resource)
    requires IgnoresMirrored(p) && r.record.Some?
    ensures r.record == Some(Compared(p, Payload(p, r, None))) <==>
      && Compared(p, r.record.value) == r.record.value
      && forall k :: k in p.compared ==>
           if k in p.ignored then k !in r.record.value ==> k !in r.spec
           else Get(r.record.value, k) == Get(r.spec, k)
  {
    var record, pinned := r.record.value, Payload(p, r, None);
    forall k ensures Get(Compared(p, pinned), k) ==
      if k !in p.compared then None
      else if k in p.ignored && k in record then Some(record[k])
      else Get(r.spec, k)
    {}
    if Compared(p, record) == record &&
       forall k :: k in p.compared ==>
         if k in p.ignored then k !in record ==> k !in r.spec else Get(record, k) == Get(r.spec, k)
    {
      forall k ensures Get(record, k) == Get(Compared(p, pinned), k) {
        assert Get(Compared(p, record), k) == Get(record, k);
      }
      SameMembers(record, Compared(p, pinned));
    }
  }

  // Asking again only on drift concludes exactly that, as long as the host does not
  // change between the two reads.
  lemma FastPathIsExact(p: Profile, r: Resource, h: Host)
    requires IgnoresMirrored(p) && Exists(h)
    ensures TwoReads(p, r, h, h) <==> UpToDate(p, r, h)
  {
    VersionDoesNotMatter(p, r, h.version);
    MatchingRecordCallsForSpec(p, r, Payload(p, r, None));
    if r.record.Some? {
      PinnedMatches(p, r);
    }
  }

  // Every verdict of a run is the one its two reads call for, and its first read found the
  // unit.
  lemma StepJudges(p: Profile, s: State, a: Action)
    requires IgnoresMirrored(p) && Inv(p, s) && Step(p, s, a).Some?
    ensures var next := Step(p, s, a).value;
      forall i :: |s.log| <= i < |next.log| ==> SoundVerdict(p, next.log[i])
  {
    if a.ObserveAgain? {
      VersionDoesNotMatter(p, s.phase.r, s.phase.first.version);
    }
  }

  predicate SoundVerdict(p: Profile, e: Entry) {
    e.Judged? ==> Exists(e.first) && (e.upToDate <==> TwoReads(p, e.r, e.first, e.last))
  }

  function JudgesSoundly(p: Profile): Entry -> bool {
    (e: Entry) => SoundVerdict(p, e)
  }

  lemma {:induction false} RunJudges(p: Profile, s: State, actions: seq<Action>)
    requires IgnoresMirrored(p) && Inv(p, s) && Run(p, s, actions).Some?
    ensures All(Since(s, Run(p, s, actions).value), JudgesSoundly(p))
    decreases |actions|
  {
    if actions != [] {
      var next := Step(p, s, actions[0]).value;
      var end := Run(p, s, actions).value;
      StepLogs(p, s, actions[0]);
      RunLogs(p, next, actions[1..]);
      SinceSplits(s, next, end);
      StepKeepsInv(p, s, actions[0]);
      StepJudges(p, s, actions[0]);
      RunJudges(p, next, actions[1..]);
      assert All(Since(s, next), JudgesSoundly(p));
      AllSplits(Since(s, next), Since(next, end), JudgesSoundly(p));
    }
  }

  // ---------------------------------------------------------------- convergence

  // Sending what a resource calls for and recording it calls for the same again.
  lemma PayloadSettles(p: Profile, spec: Fields, record: Option<Fields>)
    requires IgnoresMirrored(p)
    ensures var config := Payload(p, Resource(spec, record), None);
      Payload(p, Resource(spec, Some(Compared(p, config))), None) == config
  {
    var config := Payload(p, Resource(spec, record), None);
    var again := Payload(p, Resource(spec, Some(Compared(p, config))), None);
    forall k ensures Get(again, k) == Get(config, k) {}
    SameMembers(again, config);
  }

  // A stretch of a run in which the spec stays as it is: everything the controller does
  // comes down to one configuration.
  ghost predicate Settling(p: Profile, spec: Fields, config: Fields, s: State) {
    && Inv(p, s)
    && s.spec == spec
    && Payload(p, Resource(spec, s.record), None) == config
    && (!s.phase.Idle? ==> s.phase.r.spec == spec)
    && !Reseeding(s.phase)
  }

  predicate Settled(p: Profile, config: Fields, s: State) {
    s.record == Some(Compared(p, config))
  }

  predicate RecordedAtMostOnce(p: Profile, config: Fields, s: State, later: State) {
    (later.record == s.record && later.puts == s.puts) || (Settled(p, config, later) && later.puts <= s.puts + 1)
  }

  function SendsOnly(config: Fields): Entry -> bool {
    (e: Entry) => e.Sent? ==> e.config == config
  }

  // Up to date exactly when the last read finds the unit ready.
  function JudgesReadiness(): Entry -> bool {
    (e: Entry) => e.Judged? ==> (e.upToDate <==> Exists(e.last) && Ready(e.last))
  }

  // Up to date exactly when the last read finds the unit ready and the record already holds
  // the configuration.
  function JudgesConfig(p: Profile, config: Fields): Entry -> bool {
    (e: Entry) =>
      e.Judged? ==> (e.upToDate <==> Exists(e.last) && Ready(e.last) && e.r.record == Some(Compared(p, config)))
  }

  lemma StepStaysSettling(p: Profile, spec: Fields, config: Fields, s: State, a: Action)
    requires IgnoresMirrored(p) && Settling(p, spec, config, s) && Step(p, s, a).Some?
    requires (a.EditSpec? ==> a.spec == spec) && !(s.phase.MustCreate? && a.ExecuteOk?)
    ensures Settling(p, spec, config, Step(p, s, a).value)
  {
    StepKeepsInv(p, s, a);
    RecordSettles(p, spec, config, s, a);
    CopyStays(p, spec, s, a);
  }

  // Whatever is recorded calls for the configuration again.
  lemma RecordSettles(p: Profile, spec: Fields, config: Fields, s: State, a: Action)
    requires IgnoresMirrored(p) && Settling(p, spec, config, s) && Step(p, s, a).Some?
    ensures Payload(p, Resource(spec, Step(p, s, a).value.record), None) == config
  {
    if s.phase.Applied? {
      assert s.phase.payload == config;
      PayloadSettles(p, spec, s.record);
    }
  }

  // A reconcile keeps the spec it started from.
  lemma CopyStays(p: Profile, spec: Fields, s: State, a: Action)
    requires Step(p, s, a).Some? && s.spec == spec && (!s.phase.Idle? ==> s.phase.r.spec == spec)
    requires !Reseeding(s.phase) && (a.EditSpec? ==> a.spec == spec) && !(s.phase.MustCreate? && a.ExecuteOk?)
    ensures var next := Step(p, s, a).value;
      next.spec == spec && (!next.phase.Idle? ==> next.phase.r.spec == spec) && !Reseeding(next.phase)
  {}

  // What is sent and what is recorded.
  lemma StepSendsConfig(p: Profile, spec: Fields, config: Fields, s: State, a: Action)
    requires Settling(p, spec, config, s) && Step(p, s, a).Some? && !s.phase.MustCreate?
    ensures var next := Step(p, s, a).value;
      && (Sending(s.phase) ==> Outgoing(s.phase) == config)
      && (next.record != s.record || a.RecordOk? ==> Settled(p, config, next))
      && next.puts == if next.record == s.record then s.puts else s.puts + 1
  {}

  lemma StepJudgesConfig(p: Profile, spec: Fields, config: Fields, s: State, a: Action)
    requires IgnoresMirrored(p) && Settling(p, spec, config, s) && Step(p, s, a).Some?
    requires a.Observe? || a.ObserveAgain?
    ensures var next := Step(p, s, a).value;
      next.log != s.log ==>
        var e := next.log[|s.log|];
        e.Judged? && e.r.record == s.record && JudgesConfig(p, config)(e)
  {
    if a.Observe? {
      MatchingRecordCallsForSpec(p, s.phase.r, config);
    }
  }

  lemma StepSettles(p: Profile, spec: Fields, config: Fields, s: State, a: Action)
    requires IgnoresMirrored(p) && Settling(p, spec, config, s) && Step(p, s, a).Some?
    requires a.EditSpec? ==> a.spec == spec
    requires All(Since(s, Step(p, s, a).value), IsNoCreate())
    ensures var next := Step(p, s, a).value;
      && Settling(p, spec, config, next)
      && All(Since(s, next), SendsOnly(config))
      && All(Since(s, next), JudgesConfig(p, config))
      && RecordedAtMostOnce(p, config, s, next)
      && (a.RecordOk? ==> Settled(p, config, next))
      && (Settled(p, config, s) ==> Settled(p, config, next) && next.puts == s.puts && All(Since(s, next), JudgesReadiness()))
  {
    var next := Step(p, s, a).value;
    if s.phase.MustCreate? && (a.ExecuteOk? || a.ExecuteFails?) {
      CreateShows(p, s, a);
    }
    StepStaysSettling(p, spec, config, s, a);
    if s.phase.MustCreate? {
      assert next.log == s.log && next.record == s.record && next.puts == s.puts;
    } else {
      StepSendsConfig(p, spec, config, s, a);
      if a.Observe? || a.ObserveAgain? {
        StepJudgesConfig(p, spec, config, s, a);
      }
    }
    EntryIs(p, s, a);
  }

  lemma CreateShows(p: Profile, s: State, a: Action)
    requires Step(p, s, a).Some? && s.phase.MustCreate? && (a.ExecuteOk? || a.ExecuteFails?)
    ensures !All(Since(s, Step(p, s, a).value), IsNoCreate())
  {
    var next := Step(p, s, a).value;
    assert !IsNoCreate()(Since(s, next)[0]);
  }

  // What one step logs, if it logs.
  lemma EntryIs(p: Profile, s: State, a: Action)
    requires Step(p, s, a).Some?
    ensures var next := Step(p, s, a).value;
      if next.log == s.log then Since(s, next) == []
      else
        && Since(s, next) == [next.log[|s.log|]]
        && (next.log[|s.log|].Judged? ==> a.Observe? || a.ObserveAgain?)
        && (next.log[|s.log|].Sent? ==> Sending(s.phase) && next.log[|s.log|].config == Outgoing(s.phase))
  {}

  predicate NoEdits(spec: Fields, actions: seq<Action>) {
    forall i :: 0 <= i < |actions| ==> actions[i].EditSpec? ==> actions[i].spec == spec
  }

  lemma {:induction false} RunSettles(p: Profile, spec: Fields, config: Fields, s: State, actions: seq<Action>)
    requires IgnoresMirrored(p) && Settling(p, spec, config, s) && Run(p, s, actions).Some?
    requires NoEdits(spec, actions)
    requires All(Since(s, Run(p, s, actions).value), IsNoCreate())
    ensures var end := Run(p, s, actions).value;
      && All(Since(s, end), SendsOnly(config))
      && All(Since(s, end), JudgesConfig(p, config))
      && RecordedAtMostOnce(p, config, s, end)
      && (RecordOk in actions ==> Settled(p, config, end))
      && (Settled(p, config, s) ==> Settled(p, config, end) && end.puts == s.puts && All(Since(s, end), JudgesReadiness()))
    decreases |actions|
  {
    if actions != [] {
      var next := Step(p, s, actions[0]).value;
      var end := Run(p, s, actions).value;
      StepLogs(p, s, actions[0]);
      RunLogs(p, next, actions[1..]);
      SinceSplits(s, next, end);
      AllSplits(Since(s, next), Since(next, end), IsNoCreate());
      StepSettles(p, spec, config, s, actions[0]);
      RunSettles(p, spec, config, next, actions[1..]);
      AllSplits(Since(s, next), Since(next, end), SendsOnly(config));
      AllSplits(Since(s, next), Since(next, end), JudgesConfig(p, config));
      AllSplits(Since(s, next), Since(next, end), JudgesReadiness());
    }
  }

  // From any state between two reconciles, adopted with no record included, and whatever
  // the host and the calls do: with the spec left alone every Update sends one and the
  // same configuration and the record is written at most once, and an observation is up to
  // date exactly when the unit is ready and the record holds that configuration. Once it
  // does nothing is written any more, and readiness alone decides.
  lemma Converges(p: Profile, s: State, actions: seq<Action>)
    requires IgnoresMirrored(p) && s.phase.Idle? && Run(p, s, actions).Some?
    requires NoEdits(s.spec, actions)
    requires All(Since(s, Run(p, s, actions).value), IsNoCreate())
    ensures var config, end := Payload(p, Resource(s.spec, s.record), None), Run(p, s, actions).value;
      && All(Since(s, end), SendsOnly(config))
      && All(Since(s, end), JudgesConfig(p, config))
      && RecordedAtMostOnce(p, config, s, end)
      && (RecordOk in actions ==> Settled(p, config, end))
      && (Settled(p, config, s) ==> Settled(p, config, end) && end.puts == s.puts && All(Since(s, end), JudgesReadiness()))
  {
    RunSettles(p, s.spec, Payload(p, Resource(s.spec, s.record), None), s, actions);
  }

  // ---------------------------------------------------------------- record and host

  // The record is the compared part of a configuration that was sent and accepted.
  ghost predicate Backed(p: Profile, s: State) {
    && (s.record.Some? ==> exists i :: 0 <= i < |s.log| && AcceptedAs(p, s.log[i], s.record.value))
    && (s.phase.Applied? ==> s.log != [] && exists i :: 0 <= i < |s.log| && s.log[i] == Sent(s.phase.create, s.phase.payload, true))
  }

  predicate AcceptedAs(p: Profile, e: Entry, record: Fields) {
    e.Sent? && e.ok && Compared(p, e.config) == record
  }

  lemma StepKeepsBacked(p: Profile, s: State, a: Action)
    requires Backed(p, s) && Step(p, s, a).Some?
    ensures Backed(p, Step(p, s, a).value)
  {
    var next := Step(p, s, a).value;
    StepLogs(p, s, a);
    assert forall i :: 0 <= i < |s.log| ==> next.log[i] == s.log[i];
    if next.phase.Applied? && !s.phase.Applied? {
      assert next.log[|s.log|] == Sent(next.phase.create, next.phase.payload, true);
    }
    if next.record != s.record {
      var i :| 0 <= i < |s.log| && s.log[i] == Sent(s.phase.create, s.phase.payload, true);
      assert AcceptedAs(p, next.log[i], next.record.value);
    }
  }

  // In every run of a resource that starts without a record, whatever fails and whoever
  // else touches the host.
  lemma {:induction false} RecordIsBacked(p: Profile, s: State, actions: seq<Action>)
    requires Backed(p, s) && Run(p, s, actions).Some?
    ensures Backed(p, Run(p, s, actions).value)
    decreases |actions|
  {
    if actions != [] {
      StepKeepsBacked(p, s, actions[0]);
      RecordIsBacked(p, Step(p, s, actions[0]).value, actions[1..]);
    }
  }

  // In every run, a command logged as run had by then left the host with the configuration
  // it sent, and one logged as failed ended its reconcile with nothing recorded.
  lemma {:induction false} CommandIsLogged(p: Profile, s: State, actions: seq<Action>, i: nat) returns (n: nat)
    requires Run(p, s, actions).Some?
    requires |s.log| <= i < |Run(p, s, actions).value.log| && Run(p, s, actions).value.log[i].Sent?
    ensures 0 < n <= |actions| && Run(p, s, actions[..n - 1]).Some? && Run(p, s, actions[..n]).Some?
    ensures var before, at, end := Run(p, s, actions[..n - 1]).value, Run(p, s, actions[..n]).value, Run(p, s, actions).value;
      && at.log == end.log[..i + 1]
      && if end.log[i].ok then at.host.config == Some(end.log[i].config) else at.phase.Idle? && at.record == before.record
    decreases |actions|
  {
    var next, end := Step(p, s, actions[0]).value, Run(p, s, actions).value;
    StepLogs(p, s, actions[0]);
    EntryIs(p, s, actions[0]);
    RunLogs(p, next, actions[1..]);
    if i < |next.log| {
      n := 1;
      FirstStep(p, s, actions);
      assert end.log[..i + 1] == next.log;
    } else {
      var m := CommandIsLogged(p, next, actions[1..], i);
      n := m + 1;
      RunTail(p, s, actions, m - 1);
      RunTail(p, s, actions, m);
    }
  }

  lemma FirstStep(p: Profile, s: State, actions: seq<Action>)
    requires actions != []
    ensures Run(p, s, actions[..0]) == Some(s) && Run(p, s, actions[..1]) == Step(p, s, actions[0])
  {
    assert actions[..1] == [actions[0]];
    var next := Step(p, s, actions[0]);
    if next.Some? {
      assert Run(p, next.value, actions[..1][1..]) == next;
    }
  }

  lemma RunTail(p: Profile, s: State, actions: seq<Action>, m: nat)
    requires m < |actions| && Step(p, s, actions[0]).Some?
    ensures Run(p, s, actions[..m + 1]) == Run(p, Step(p, s, actions[0]).value, actions[1..][..m])
  {
    assert actions[..m + 1][1..] == actions[1..][..m];
  }

  // A record as this controller writes it.
  predicate Canonical(p: Profile, record: Option<Fields>) {
    record.Some? ==> Compared(p, record.value) == record.value
  }

  predicate Runs(p: Profile, h: Host, compared: Fields) {
    h.config.Some? && Compared(p, h.config.value) == compared
  }

  // What the host is to run: what was just sent, else what is recorded.
  function Due(p: Profile, s: State): Option<Fields> {
    if s.phase.Applied? then Some(Compared(p, s.phase.payload)) else s.record
  }

  predicate HostHolds(p: Profile, s: State) {
    Due(p, s).Some? ==> Runs(p, s.host, Due(p, s).value)
  }

  ghost predicate InStep(p: Profile, s: State) {
    Inv(p, s) && HostHolds(p, s)
  }

  // The host runs the spec off the ignored names, and on an ignored one what is carried
  // for it, or the spec where nothing is.
  predicate Agrees(p: Profile, r: Resource, h: Host) {
    && h.config.Some? && r.record.Some?
    && forall k :: k in p.compared ==>
         Get(h.config.value, k) ==
           if k in p.ignored && k in r.record.value then Get(r.record.value, k) else Get(r.spec, k)
  }

  function AgreesIfUpToDate(p: Profile): Entry -> bool {
    (e: Entry) => e.Judged? && e.upToDate ==> Ready(e.last) && Agrees(p, e.r, e.last)
  }

  // The steps after which record and host still agree. A failed command must leave the host
  // with what is recorded, somebody else's configuration with what is due, and a recording
  // may be lost only if there was nothing to record: no record yet, or already this one.
  predicate Harmless(p: Profile, s: State, a: Action) {
    match a
    case ExecuteFails(host) => s.record.Some? ==> Runs(p, host, s.record.value)
    case Outsider(host) => Due(p, s).Some? ==> Runs(p, host, Due(p, s).value)
    case RecordFails(landed) => landed || s.record.None? || s.record == Due(p, s)
    case _ => true
  }

  lemma StepKeepsStep(p: Profile, s: State, a: Action)
    requires IgnoresMirrored(p) && InStep(p, s) && Step(p, s, a).Some?
    ensures InStep(p, Step(p, s, a).value) <==> Harmless(p, s, a)
  {
    StepKeepsInv(p, s, a);
  }

  lemma StepVerdictAgrees(p: Profile, s: State, a: Action)
    requires IgnoresMirrored(p) && InStep(p, s) && Step(p, s, a).Some?
    ensures All(Since(s, Step(p, s, a).value), AgreesIfUpToDate(p))
  {
    var next := Step(p, s, a).value;
    EntryIs(p, s, a);
    if next.log != s.log && next.log[|s.log|].Judged? && next.log[|s.log|].upToDate {
      MatchAgrees(p, s.phase.r, if a.Observe? then s.phase.r.spec else Payload(p, s.phase.r, None), s.host);
    }
  }

  // A record that matches the spec, or the payload, on a host that runs it.
  lemma MatchAgrees(p: Profile, r: Resource, spec: Fields, h: Host)
    requires IgnoresMirrored(p) && spec in [r.spec, Payload(p, r, None)]
    requires r.record == Some(Compared(p, spec)) && Runs(p, h, r.record.value)
    ensures Agrees(p, r, h)
  {
    forall k | k in p.compared
      ensures Get(h.config.value, k) ==
        if k in p.ignored && k in r.record.value then Get(r.record.value, k) else Get(r.spec, k)
    {
      assert Get(Compared(p, spec), k) == Get(spec, k);
      assert Get(Compared(p, h.config.value), k) == Get(h.config.value, k);
    }
  }

  // One step from agreement: its verdict, if it gives one, is right, and it keeps the
  // agreement exactly if it is harmless.
  lemma StepAgrees(p: Profile, s: State, a: Action)
    requires IgnoresMirrored(p) && InStep(p, s) && Step(p, s, a).Some?
    ensures All(Since(s, Step(p, s, a).value), AgreesIfUpToDate(p))
    ensures InStep(p, Step(p, s, a).value) <==> Harmless(p, s, a)
  {
    StepVerdictAgrees(p, s, a);
    StepKeepsStep(p, s, a);
  }

  // A command that runs restores the agreement, whatever state it finds.
  lemma CommandRestores(p: Profile, s: State, host: Host)
    requires IgnoresMirrored(p) && Inv(p, s) && Step(p, s, ExecuteOk(host)).Some?
    ensures InStep(p, Step(p, s, ExecuteOk(host)).value)
  {
    StepKeepsInv(p, s, ExecuteOk(host));
  }

  // A recording that lands restores it exactly if the host runs what is recorded; a lost one
  // leaves the question to the record there was.
  lemma RecordingDecides(p: Profile, s: State, a: Action)
    requires IgnoresMirrored(p) && Inv(p, s) && s.phase.Applied? && (a.RecordOk? || a.RecordFails?)
    ensures InStep(p, Step(p, s, a).value) <==>
      if a.RecordOk? || a.landed then Runs(p, s.host, Compared(p, s.phase.payload))
      else s.record.Some? ==> Runs(p, s.host, s.record.value)
  {
    StepKeepsInv(p, s, a);
  }

  predicate HarmlessRun(p: Profile, s: State, actions: seq<Action>)
    decreases |actions|
  {
    actions == [] ||
    (Harmless(p, s, actions[0]) &&
     match Step(p, s, actions[0])
     case None => true
     case Some(next) => HarmlessRun(p, next, actions[1..]))
  }

  // In every run of harmless steps, an up-to-date verdict means that the unit is ready and
  // runs what the resource calls for.
  lemma {:induction false} UpToDateMeansAgreement(p: Profile, s: State, actions: seq<Action>)
    requires IgnoresMirrored(p) && InStep(p, s) && Run(p, s, actions).Some? && HarmlessRun(p, s, actions)
    ensures var end := Run(p, s, actions).value;
      InStep(p, end) && All(Since(s, end), AgreesIfUpToDate(p))
    decreases |actions|
  {
    if actions != [] {
      var next := Step(p, s, actions[0]).value;
      var end := Run(p, s, actions).value;
      StepLogs(p, s, actions[0]);
      RunLogs(p, next, actions[1..]);
      SinceSplits(s, next, end);
      StepAgrees(p, s, actions[0]);
      UpToDateMeansAgreement(p, next, actions[1..]);
      AllSplits(Since(s, next), Since(next, end), AgreesIfUpToDate(p));
    }
  }

  lemma {:induction false} RunConcat(p: Profile, s: State, a: seq<Action>, b: seq<Action>)
    ensures Run(p, s, a + b) == match Run(p, s, a)
                                case None => None
                                case Some(middle) => Run(p, middle, b)
    decreases |a|
  {
    if a == [] {
      assert a + b == b;
    } else {
      assert (a + b)[1..] == a[1..] + b;
      if Step(p, s, a[0]).Some? {
        RunConcat(p, Step(p, s, a[0]).value, a[1..], b);
      }
    }
  }

  // Whatever failed and whoever interfered before: from the last command that ran on, as
  // long as only harmless steps follow it, up-to-date verdicts are right.
  lemma AgreementSinceCommand(p: Profile, s: State, before: seq<Action>, host: Host, after: seq<Action>)
    requires IgnoresMirrored(p) && Inv(p, s) && Run(p, s, before + [ExecuteOk(host)]).Some?
    requires var sent := Run(p, s, before + [ExecuteOk(host)]).value;
      Run(p, sent, after).Some? && HarmlessRun(p, sent, after)
    ensures var sent, end := Run(p, s, before + [ExecuteOk(host)]).value, Run(p, s, before + [ExecuteOk(host)] + after);
      end.Some? && InStep(p, end.value) && All(Since(sent, end.value), AgreesIfUpToDate(p))
  {
    var command := [ExecuteOk(host)];
    RunConcat(p, s, before + command, after);
    RunConcat(p, s, before, command);
    var found := Run(p, s, before).value;
    RunKeepsInv(p, s, before);
    assert command[1..] == [];
    CommandRestores(p, found, host);
    UpToDateMeansAgreement(p, Step(p, found, ExecuteOk(host)).value, after);
  }

  // No call of the run fails and nobody else configures the host.
  predicate Clean(actions: seq<Action>) {
    forall i :: 0 <= i < |actions| ==> !actions[i].ExecuteFails? && !actions[i].RecordFails? && !actions[i].Outsider?
  }

  lemma {:induction false} CleanIsHarmless(p: Profile, s: State, actions: seq<Action>)
    requires Clean(actions)
    ensures HarmlessRun(p, s, actions)
    decreases |actions|
  {
    if actions != [] && Step(p, s, actions[0]).Some? {
      CleanIsHarmless(p, Step(p, s, actions[0]).value, actions[1..]);
    }
  }

  // ---------------------------------------------------------------- exactly when they agree

  // Every up-to-date verdict still to come is right, as far as nothing fails from here on.
  ghost predicate VerdictsHold(p: Profile, s: State) {
    forall actions :: Clean(actions) ==> VerdictsAgree(p, s, actions)
  }

  ghost predicate VerdictsAgree(p: Profile, s: State, actions: seq<Action>) {
    Run(p, s, actions).Some? ==> All(Since(s, Run(p, s, actions).value), AgreesIfUpToDate(p))
  }

  // In any state: verdicts hold from here on exactly if the host runs what is due.
  lemma AgreementIsExact(p: Profile, s: State)
    requires IgnoresMirrored(p) && Inv(p, s) && Canonical(p, s.record)
    ensures VerdictsHold(p, s) <==> HostHolds(p, s)
  {
    if HostHolds(p, s) {
      forall actions | Clean(actions) ensures VerdictsAgree(p, s, actions) {
        if Run(p, s, actions).Some? {
          CleanIsHarmless(p, s, actions);
          UpToDateMeansAgreement(p, s, actions);
        }
      }
    } else {
      WrongVerdict(p, s);
    }
  }

  // That is so at the end of every run, whatever happened in it.
  lemma {:induction false} RunAgreementIsExact(p: Profile, s: State, actions: seq<Action>)
    requires IgnoresMirrored(p) && Inv(p, s) && Canonical(p, s.record) && Run(p, s, actions).Some?
    ensures var end := Run(p, s, actions).value; VerdictsHold(p, end) <==> HostHolds(p, end)
    decreases |actions|
  {
    if actions == [] {
      AgreementIsExact(p, s);
    } else {
      StepKeepsInv(p, s, actions[0]);
      StepKeepsCanonical(p, s, actions[0]);
      RunAgreementIsExact(p, Step(p, s, actions[0]).value, actions[1..]);
    }
  }

  // So a step taken in agreement leaves later verdicts right exactly if it is harmless: a
  // failed command, a lost recording and outside configuration included.
  lemma StepIsHarmlessExactly(p: Profile, s: State, a: Action)
    requires IgnoresMirrored(p) && InStep(p, s) && Canonical(p, s.record) && Step(p, s, a).Some?
    ensures VerdictsHold(p, Step(p, s, a).value) <==> Harmless(p, s, a)
  {
    StepKeepsInv(p, s, a);
    StepKeepsStep(p, s, a);
    StepKeepsCanonical(p, s, a);
    AgreementIsExact(p, Step(p, s, a).value);
  }

  lemma StepKeepsCanonical(p: Profile, s: State, a: Action)
    requires Canonical(p, s.record) && Step(p, s, a).Some?
    ensures Canonical(p, Step(p, s, a).value.record)
  {
    if s.phase.Applied? {
      assert Compared(p, Compared(p, s.phase.payload)) == Compared(p, s.phase.payload);
    }
  }

  // Sets the spec to what is recorded and looks again when the unit is ready.
  function Probe(spec: Fields): seq<Action> {
    [EditSpec(spec), HostMoves("loaded", "active", None), Fetch, Observe]
  }

  lemma ProbeRuns(p: Profile, s: State, spec: Fields)
    requires s.phase.Idle? && s.record == Some(Compared(p, spec))
    ensures var end := Run(p, s, Probe(spec));
      && end.Some? && end.value.log == s.log + [Judged(Resource(spec, s.record), true, end.value.host, end.value.host)]
      && end.value.host.config == s.host.config
  {
    var actions := Probe(spec);
    var s1 := Step(p, s, actions[0]).value;
    var s2 := Step(p, s1, actions[1]).value;
    var s3 := Step(p, s2, actions[2]).value;
    var s4 := Step(p, s3, actions[3]).value;
    RunTakes(p, s, actions, [s, s1, s2, s3, s4]);
  }

  lemma AgreedIsRun(p: Profile, spec: Fields, h: Host)
    requires Agrees(p, Resource(spec, Some(Compared(p, spec))), h)
    ensures Runs(p, h, Compared(p, spec))
  {
    forall k ensures Get(Compared(p, h.config.value), k) == Get(Compared(p, spec), k) {
      if k in p.compared {
        assert Get(h.config.value, k) == Get(spec, k);
      }
    }
    SameMembers(Compared(p, h.config.value), Compared(p, spec));
  }

  lemma ProbeMisleads(p: Profile, s: State, spec: Fields)
    requires s.phase.Idle? && s.record == Some(Compared(p, spec)) && !Runs(p, s.host, s.record.value)
    ensures Clean(Probe(spec)) && !VerdictsAgree(p, s, Probe(spec))
  {
    ProbeRuns(p, s, spec);
    var end := Run(p, s, Probe(spec)).value;
    var e := end.log[|s.log|];
    if Agrees(p, e.r, e.last) {
      AgreedIsRun(p, spec, end.host);
    }
    assert Since(s, end) == [e] && !AgreesIfUpToDate(p)(Since(s, end)[0]);
  }

  // The one action that ends a reconcile under way without sending anything.
  function Settle(phase: Phase): seq<Action> {
    if phase.Idle? then [] else if phase.Applied? then [RecordOk] else [Abort]
  }

  lemma WrongVerdict(p: Profile, s: State)
    requires Canonical(p, s.record) && !HostHolds(p, s)
    ensures !VerdictsHold(p, s)
  {
    SettleRuns(p, s);
    var settle, due := Settle(s.phase), Due(p, s).value;
    var idle := Run(p, s, settle).value;
    assert Compared(p, due) == due by {
      if s.phase.Applied? {
        assert Compared(p, Compared(p, s.phase.payload)) == Compared(p, s.phase.payload);
      }
    }
    ProbeMisleads(p, idle, due);
    RunConcat(p, s, settle, Probe(due));
    SameLog(s, idle, Run(p, idle, Probe(due)));
    assert Clean(settle + Probe(due)) && !VerdictsAgree(p, s, settle + Probe(due));
  }

  lemma SettleRuns(p: Profile, s: State)
    ensures var idle := Run(p, s, Settle(s.phase));
      idle.Some? && idle.value.phase.Idle? && idle.value.record == Due(p, s) && idle.value.host == s.host && idle.value.log == s.log
    ensures Clean(Settle(s.phase))
  {
    if !s.phase.Idle? {
      var settle := Settle(s.phase);
      RunTakes(p, s, settle, [s, Step(p, s, settle[0]).value]);
    }
  }

  lemma SameLog(s: State, t: State, end: Option<State>)
    requires s.log == t.log
    ensures end.Some? ==> Since(s, end.value) == Since(t, end.value)
  {}

  // The way it happens: a command runs, its record is lost, and the spec is then set back.
  // Record and spec agree again while the host runs something else.
  lemma AgreementNeedsTheRecord(p: Profile, s: State, was: Fields, wanted: Fields)
    requires WellFormed(p) && p.ignored == {} && s.phase.Idle? && Exists(s.host) && Ready(s.host)
    requires s.spec == wanted && s.record == Some(Compared(p, was)) && s.host.config == Some(was)
    requires Compared(p, was) != Compared(p, wanted)
    ensures InStep(p, s) && !VerdictsAgree(p, s, LostRecord(s, was, wanted))
  {
    var lost := LostRecord(s, was, wanted)[..4];
    LostRecordRuns(p, s, was, wanted);
    var s4 := Run(p, s, lost).value;
    ProbeMisleads(p, s4, was);
    RunConcat(p, s, lost, Probe(was));
    assert lost + Probe(was) == LostRecord(s, was, wanted);
    ProbeRuns(p, s4, was);
    var end := Run(p, s4, Probe(was)).value;
    SinceSplits(s, s4, end);
    AllSplits(Since(s, s4), Since(s4, end), AgreesIfUpToDate(p));
  }

  lemma LostRecordRuns(p: Profile, s: State, was: Fields, wanted: Fields)
    requires p.ignored == {} && s.phase.Idle? && Exists(s.host) && s.spec == wanted
    requires s.record == Some(Compared(p, was)) && Compared(p, was) != Compared(p, wanted)
    ensures var lost := Run(p, s, LostRecord(s, was, wanted)[..4]);
      && lost.Some? && lost.value.phase.Idle? && lost.value.record == s.record
      && lost.value.host.config == Some(wanted) && s.log <= lost.value.log
  {
    var actions := LostRecord(s, was, wanted)[..4];
    var s1 := Step(p, s, actions[0]).value;
    var s2 := Step(p, s1, actions[1]).value;
    assert s2.phase == MustUpdate(Resource(wanted, s.record), wanted);
    var s3 := Step(p, s2, actions[2]).value;
    var s4 := Step(p, s3, actions[3]).value;
    RunTakes(p, s, actions, [s, s1, s2, s3, s4]);
  }

  lemma {:induction false} RunTakes(p: Profile, s: State, actions: seq<Action>, states: seq<State>)
    requires 0 < |states| <= |actions| + 1 && states[0] == s
    requires forall i :: 0 <= i < |states| - 1 ==> Step(p, states[i], actions[i]) == Some(states[i + 1])
    ensures Run(p, s, actions) == Run(p, states[|states| - 1], actions[|states| - 1..])
    decreases |states|
  {
    if |states| > 1 {
      RunTakes(p, states[1], actions[1..], states[1..]);
      assert actions[1..][|states| - 2..] == actions[|states| - 1..];
    }
  }

  function LostRecord(s: State, was: Fields, wanted: Fields): seq<Action> {
    [Fetch, Observe, ExecuteOk(s.host.(config := Some(wanted))), RecordFails(false)] + Probe(was)
  }

  // ---------------------------------------------------------------- no create loop

  // The action does not take the unit's artifact away.
  predicate UnitStays(a: Action) {
    match a
    case HostMoves(load, _, _) => load != "" && load != "not-found"
    case Outsider(host) => Exists(host)
    case ExecuteFails(host) => Exists(host)
    case _ => true
  }

  lemma StepDoesNotCreate(p: Profile, s: State, a: Action)
    requires Exists(s.host) && !s.phase.MustCreate? && Step(p, s, a).Some? && UnitStays(a)
    ensures var next := Step(p, s, a).value;
      Exists(next.host) && !next.phase.MustCreate? && All(Since(s, next), IsNoCreate())
  {
    var next := Step(p, s, a).value;
    StepLogs(p, s, a);
    if next.log != s.log {
      assert Since(s, next) == [next.log[|s.log|]];
    }
  }

  // Once the unit has an artifact, by a Create or otherwise, no Create is sent until it is
  // gone again: however the unit's active state moves and whatever fails.
  lemma {:induction false} NoCreateLoop(p: Profile, s: State, actions: seq<Action>)
    requires Exists(s.host) && !s.phase.MustCreate? && Run(p, s, actions).Some?
    requires forall a :: a in actions ==> UnitStays(a)
    ensures All(Since(s, Run(p, s, actions).value), IsNoCreate())
    decreases |actions|
  {
    if actions != [] {
      var next := Step(p, s, actions[0]).value;
      var end := Run(p, s, actions).value;
      StepDoesNotCreate(p, s, actions[0]);
      NoCreateLoop(p, next, actions[1..]);
      StepLogs(p, s, actions[0]);
      RunLogs(p, next, actions[1..]);
      SinceSplits(s, next, end);
      AllSplits(Since(s, next), Since(next, end), IsNoCreate());
    }
  }

  // ---------------------------------------------------------------- one reconcile

  // A reconcile nobody disturbs, of a host that answers a command by running what is sent.
  function Undisturbed(p: Profile, s: State, applied: Host): seq<Action> {
    var r := Resource(s.spec, s.record);
    if !Exists(s.host) then [Fetch, Observe, ExecuteOk(applied), RecordOk]
    else if UpToDate(p, r, s.host) then
      if Matches(p, r, Ready(s.host)) then [Fetch, Observe] else [Fetch, Observe, ObserveAgain]
    else if p.ignored == {} then [Fetch, Observe, ExecuteOk(applied), RecordOk]
    else [Fetch, Observe, ObserveAgain, ExecuteOk(applied), RecordOk]
  }

  // An absent unit is created from the spec as it is, the seed of the ignored fields
  // included. An existing one is left alone exactly if it is up to date field by field, and
  // is else sent the spec with the recorded values at the ignored names. What was sent is
  // then recorded.
  lemma ReconcileIsExact(p: Profile, s: State, applied: Host)
    requires IgnoresMirrored(p) && s.phase.Idle? && Exists(applied)
    requires applied.config == Some(if Exists(s.host) then Payload(p, Resource(s.spec, s.record), None) else s.spec)
    ensures var end := Run(p, s, Undisturbed(p, s, applied));
      && end.Some? && end.value.phase.Idle? && end.value.spec == s.spec
      && if Exists(s.host) && UpToDate(p, Resource(s.spec, s.record), s.host) then
           end.value.record == s.record && end.value.host == s.host && end.value.puts == s.puts
           && (forall i :: |s.log| <= i < |end.value.log| ==> end.value.log[i].Judged?)
         else
           && end.value.host == applied
           && end.value.record == Some(Compared(p, applied.config.value))
           && end.value.log != [] && end.value.log[|end.value.log| - 1] == Sent(!Exists(s.host), applied.config.value, true)
  {
    var r := Resource(s.spec, s.record);
    if Exists(s.host) {
      FastPathIsExact(p, r, s.host);
      VersionDoesNotMatter(p, r, s.host.version);
      if UpToDate(p, r, s.host) {
        UndisturbedStays(p, s, applied);
      } else {
        UndisturbedUpdates(p, s, applied);
      }
    } else {
      UndisturbedCreates(p, s, applied);
    }
  }

  lemma UndisturbedCreates(p: Profile, s: State, applied: Host)
    requires s.phase.Idle? && !Exists(s.host) && Exists(applied) && applied.config == Some(s.spec)
    ensures var end := Run(p, s, Undisturbed(p, s, applied));
      && end.Some? && end.value.phase.Idle? && end.value.spec == s.spec && end.value.host == applied
      && end.value.record == Some(Compared(p, s.spec)) && end.value.log == s.log + [Sent(true, s.spec, true)]
  {
    var actions := Undisturbed(p, s, applied);
    var s1 := Step(p, s, actions[0]).value;
    var s2 := Step(p, s1, actions[1]).value;
    var s3 := Step(p, s2, actions[2]).value;
    var s4 := Step(p, s3, actions[3]).value;
    RunTakes(p, s, actions, [s, s1, s2, s3, s4]);
  }

  lemma UndisturbedStays(p: Profile, s: State, applied: Host)
    requires s.phase.Idle? && Exists(s.host)
    requires var r := Resource(s.spec, s.record);
      && UpToDate(p, r, s.host) && TwoReads(p, r, s.host, s.host) && Captured(p, r, s.host.version) == Captured(p, r, None)
    ensures var end := Run(p, s, Undisturbed(p, s, applied));
      && end.Some? && end.value == s.(log := end.value.log) && |end.value.log| == |s.log| + 1
      && end.value.log[..|s.log|] == s.log && end.value.log[|s.log|].Judged?
  {
    var actions := Undisturbed(p, s, applied);
    var s1 := Step(p, s, actions[0]).value;
    var s2 := Step(p, s1, actions[1]).value;
    if |actions| == 3 {
      var s3 := Step(p, s2, actions[2]).value;
      RunTakes(p, s, actions, [s, s1, s2, s3]);
    } else {
      RunTakes(p, s, actions, [s, s1, s2]);
    }
  }

  lemma UndisturbedUpdates(p: Profile, s: State, applied: Host)
    requires s.phase.Idle? && Exists(s.host) && Exists(applied)
    requires var r := Resource(s.spec, s.record);
      && !UpToDate(p, r, s.host) && !TwoReads(p, r, s.host, s.host)
      && Captured(p, r, s.host.version) == Captured(p, r, None) && applied.config == Some(Payload(p, r, None))
    ensures var end := Run(p, s, Undisturbed(p, s, applied));
      && end.Some? && end.value.phase.Idle? && end.value.spec == s.spec && end.value.host == applied
      && end.value.record == Some(Compared(p, applied.config.value))
      && end.value.log != [] && end.value.log[|end.value.log| - 1] == Sent(false, applied.config.value, true)
  {
    var actions := Undisturbed(p, s, applied);
    if p.ignored == {} {
      NothingIgnored(p, Resource(s.spec, s.record), None);
    }
    var s1 := Step(p, s, actions[0]).value;
    var s2 := Step(p, s1, actions[1]).value;
    var s3 := Step(p, s2, actions[2]).value;
    var s4 := Step(p, s3, actions[3]).value;
    if p.ignored == {} {
      RunTakes(p, s, actions, [s, s1, s2, s3, s4]);
    } else {
      RunTakes(p, s, actions, [s, s1, s2, s3, s4, Step(p, s4, actions[4]).value]);
    }
  }

  // ---------------------------------------------------------------- k3sVersion

  // The record holds the bare version and the observation the line the binary prints, so
  // the carried value is the recorded one exactly when k3sVersion is not handed over.
  lemma VersionIsNotCarried(p: Profile)
    requires WellFormed(p) && p.ignored <= p.mirrored + {K3S_VERSION}
    ensures (forall r: Resource, version :: Keeps(p, r.record, Payload(p, r, version))) <==> K3S_VERSION !in p.ignored
  {
    if K3S_VERSION !in p.ignored {
      forall r: Resource, version ensures Keeps(p, r.record, Payload(p, r, version)) {
        VersionDoesNotMatter(p, r, version);
        PayloadKeeps(p, r);
      }
    } else {
      var (r, line) := VersionExample();
      assert Payload(p, r, Some(line))[K3S_VERSION] == line;
      assert !Keeps(p, r.record, Payload(p, r, Some(line)));
    }
  }

  // A record of the bare version under a spec that names another one, and the line the
  // installed binary prints for it.
  function VersionExample(): (Resource, Value) {
    (Resource(map[K3S_VERSION := Str("v1.31.0+k3s1")], Some(map[K3S_VERSION := Str("v1.30.5+k3s1")])),
     Str("k3s version v1.30.5+k3s1 (9b586704)"))
  }

  lemma VersionMisleads(p: Profile)
    requires WellFormed(p) && K3S_VERSION in p.ignored
    ensures var (r, line) := VersionExample(); var h := Host("loaded", "active", Some(line), None);
      Exists(h) && UpToDate(p, r, h) && !TwoReads(p, r, h, h)
  {
    var (r, line) := VersionExample();
    assert Compared(p, r.record.value) == r.record.value;
    assert Get(Compared(p, r.spec), K3S_VERSION) == Some(Str("v1.31.0+k3s1"));
    assert Get(Compared(p, Payload(p, r, Some(line))), K3S_VERSION) == Some(line);
    assert "v1.31.0+k3s1"[4] != "v1.30.5+k3s1"[4] && |line.s| > |"v1.30.5+k3s1"|;
  }

  // For the same reason the two reads conclude what the fields call for exactly then.
  lemma FastPathNeedsTheMirror(p: Profile)
    requires WellFormed(p) && p.ignored <= p.mirrored + {K3S_VERSION}
    ensures (forall r: Resource, h :: Exists(h) ==> (TwoReads(p, r, h, h) <==> UpToDate(p, r, h))) <==> K3S_VERSION !in p.ignored
  {
    if K3S_VERSION !in p.ignored {
      forall r: Resource, h | Exists(h) ensures TwoReads(p, r, h, h) <==> UpToDate(p, r, h) {
        FastPathIsExact(p, r, h);
      }
    } else {
      VersionMisleads(p);
    }
  }
}
