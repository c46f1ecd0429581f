/**
 Per-field drift ownership: a client wrapped around another client. Paths under `ignore`
 are owned by someone else, so what was observed there is substituted for the spec value
 before the resource is compared and before it is written.
 */
module DriftDetection {
  import opened Wrappers
  import opened Json
  import PathSyntax
  import opened FieldPath
  import opened Eligibility

  // ---------------------------------------------------------------- resources

  // A managed resource, projected to JSON below the two roots the paths are relative to.
  datatype Resource = Resource(
    forProvider: Value,
    atProvider: Value,
    annotations: map<string, string>,
    drift: Option<DriftBlock>,
    condition: Option<Condition>)

  // spec.driftDetection; `ignore` lists the paths of all rules, in order.
  datatype DriftBlock = DriftBlock(mode: string, ignore: seq<string>)

  // The DriftDetected condition; `paths` are those its message lists.
  datatype Condition = Condition(reason: Reason, paths: seq<Path>)

  datatype Reason = InSync | Drifted | DriftIgnored | IgnoredPathUnobserved

  // The types of the Go fields guarantee this of every resource of the kind.
  predicate Typed(r: Resource, kind: Kind) {
    WellTyped(r.forProvider, kind.forProvider) && WellTyped(r.atProvider, kind.atProvider)
  }

  // ---------------------------------------------------------------- configuration

  const ENABLED := "enabled"
  const WARN := "warn"
  const DISABLED := "disabled"

  datatype Config = Config(mode: string, ignorePaths: seq<Path>)

  datatype ConfigError = BadPath(why: PathSyntax.BadPath) | NotEligible(refused: Ineligible)

  function ModeOf(r: Resource): string {
    if r.drift.Some? && r.drift.value.mode != "" then r.drift.value.mode else ENABLED
  }

  function IgnoreOf(r: Resource): seq<string> {
    if r.drift.Some? then r.drift.value.ignore else []
  }

  function CheckPath(kind: Kind, s: string): Result<Path, ConfigError> {
    match PathSyntax.Normalize(s)
    case Failure(why) => Failure(BadPath(why))
    case Success(_) =>
      var path := PathSyntax.Segments(s);
      match Refusal(kind, path)
      case Some(refused) => Failure(NotEligible(refused))
      case None => Success(path)
  }

  // Results of a check on each item, or the error of the first item that fails it.
  function Each<A, B, E>(check: A -> Result<B, E>, items: seq<A>): Result<seq<B>, E> {
    if items == [] then Success([])
    else
      match check(items[0])
      case Failure(e) => Failure(e)
      case Success(b) =>
        var rest := Each(check, items[1..]);
        if rest.Failure? then rest else Success([b] + rest.value)
  }

  function PathCheck(kind: Kind): string -> Result<Path, ConfigError> {
    s => CheckPath(kind, s)
  }

  function ConfigOf(kind: Kind, r: Resource): Result<Config, ConfigError> {
    match Each(PathCheck(kind), IgnoreOf(r))
    case Failure(e) => Failure(e)
    case Success(paths) => Success(Config(ModeOf(r), paths))
  }

  lemma {:induction false} EachSucceeds<A, B, E>(check: A -> Result<B, E>, items: seq<A>, results: seq<B>)
    requires |results| == |items| && forall i :: 0 <= i < |items| ==> check(items[i]) == Success(results[i])
    ensures Each(check, items) == Success(results)
  {
    if items != [] {
      EachSucceeds(check, items[1..], results[1..]);
      assert [results[0]] + results[1..] == results;
    }
  }

  lemma {:induction false} EachFails<A, B, E>(check: A -> Result<B, E>, items: seq<A>, n: nat)
    requires n < |items| && check(items[n]).Failure? && forall i :: 0 <= i < n ==> check(items[i]).Success?
    ensures Each(check, items) == Failure(check(items[n]).error)
  {
    if n > 0 {
      EachFails(check, items[1..], n - 1);
    }
  }

  method ReadPath(kind: Kind, s: string) returns (result: Result<Path, ConfigError>)
    ensures result == PathCheck(kind)(s)
  {
    var normalized := PathSyntax.NormalizePath(s);
    if normalized.Failure? {
      return Failure(BadPath(normalized.error));
    }
    var path := PathSyntax.Segments(s);
    var refused := CheckEligible(kind, path);
    return if refused.Some? then Failure(NotEligible(refused.value)) else Success(path);
  }

  method ReadConfig(kind: Kind, r: Resource) returns (result: Result<Config, ConfigError>)
    ensures result == ConfigOf(kind, r)
  {
    var paths := ReadPaths(kind, IgnoreOf(r));
    return if paths.Failure? then Failure(paths.error) else Success(Config(ModeOf(r), paths.value));
  }

  method ReadPaths(kind: Kind, ignore: seq<string>) returns (result: Result<seq<Path>, ConfigError>)
    ensures result == Each(PathCheck(kind), ignore)
  {
    ghost var check := PathCheck(kind);
    var paths: seq<Path> := [];
    for i := 0 to |ignore|
      invariant |paths| == i
      invariant forall j :: 0 <= j < i ==> check(ignore[j]) == Success(paths[j])
    {
      var checked := ReadPath(kind, ignore[i]);
      if checked.Failure? {
        EachFails(check, ignore, i);
        return Failure(checked.error);
      }
      paths := paths + [checked.value];
    }
    EachSucceeds(check, ignore, paths);
    return Success(paths);
  }

  // All or nothing: a list passes exactly when each of its items does, and then in full.
  lemma {:induction false} EachIsAllOrNothing<A, B, E>(check: A -> Result<B, E>, items: seq<A>)
    ensures Each(check, items).Success? <==> forall i :: 0 <= i < |items| ==> check(items[i]).Success?
    ensures Each(check, items).Success? ==>
      && |Each(check, items).value| == |items|
      && forall i :: 0 <= i < |items| ==> check(items[i]) == Success(Each(check, items).value[i])
  {
    if items != [] {
      EachIsAllOrNothing(check, items[1..]);
      assert forall i :: 1 <= i < |items| ==> items[i] == items[1..][i - 1];
    }
  }

  // A configuration is read exactly when every one of its ignore paths is acceptable,
  // and then none of them is left out.
  lemma ConfigIsAllOrNothing(kind: Kind, r: Resource)
    ensures ConfigOf(kind, r).Success? <==>
      forall i :: 0 <= i < |IgnoreOf(r)| ==> CheckPath(kind, IgnoreOf(r)[i]).Success?
    ensures ConfigOf(kind, r).Success? ==>
      var paths := ConfigOf(kind, r).value.ignorePaths;
      && |paths| == |IgnoreOf(r)|
      && forall i :: 0 <= i < |paths| ==> CheckPath(kind, IgnoreOf(r)[i]) == Success(paths[i])
  {
    EachIsAllOrNothing(PathCheck(kind), IgnoreOf(r));
  }

  // What every accepted path gives: it resolves in both types and names no identity.
  predicate Accepted(kind: Kind, path: Path) {
    path != [] && Refusal(kind, path).None?
  }

  // What ends a configured path, and where it leads, said of the types alone.
  predicate Owned(kind: Kind, path: Path) {
    && path != [] && path[|path| - 1] != "host"
    && FieldType(kind.forProvider, path).Some? && FieldType(kind.atProvider, path).Some?
  }

  lemma AcceptedPaths(kind: Kind, r: Resource)
    requires ConfigOf(kind, r).Success?
    ensures forall p :: p in ConfigOf(kind, r).value.ignorePaths ==> Accepted(kind, p) && Owned(kind, p)
  {
    ConfigIsAllOrNothing(kind, r);
    forall p | p in ConfigOf(kind, r).value.ignorePaths ensures Accepted(kind, p) && Owned(kind, p) {
      RefusalIsExact(kind, p);
    }
  }

  // One path is accepted exactly if it normalizes to a path below forProvider that does not
  // end in the identity field and names a field of both types.
  lemma PathIsAcceptedExactly(kind: Kind, s: string)
    ensures CheckPath(kind, s).Success? <==> PathSyntax.Normalize(s).Success? && Owned(kind, PathSyntax.Segments(s))
    ensures CheckPath(kind, s).Success? ==> CheckPath(kind, s).value == PathSyntax.Segments(s)
    ensures PathSyntax.Normalize(s).Failure? ==> CheckPath(kind, s) == Failure(BadPath(PathSyntax.Normalize(s).error))
  {
    if PathSyntax.Normalize(s).Success? {
      RefusalIsExact(kind, PathSyntax.Segments(s));
    }
  }

  // A configuration: mode enabled where none is given, and each path in its place.
  lemma ConfigReads(kind: Kind, r: Resource)
    requires ConfigOf(kind, r).Success?
    ensures var cfg := ConfigOf(kind, r).value;
      match r.drift
      case None => cfg == Config("enabled", [])
      case Some(block) =>
        && cfg.mode == (if block.mode == "" then "enabled" else block.mode)
        && |cfg.ignorePaths| == |block.ignore|
        && forall i :: 0 <= i < |block.ignore| ==>
             PathSyntax.Normalize(block.ignore[i]).Success? && cfg.ignorePaths[i] == PathSyntax.Segments(block.ignore[i])
  {
    ConfigIsAllOrNothing(kind, r);
    if r.drift.Some? {
      forall i | 0 <= i < |r.drift.value.ignore|
        ensures PathSyntax.Normalize(r.drift.value.ignore[i]).Success?
        ensures ConfigOf(kind, r).value.ignorePaths[i] == PathSyntax.Segments(r.drift.value.ignore[i])
      {
        assert IgnoreOf(r)[i] == r.drift.value.ignore[i];
        PathIsAcceptedExactly(kind, IgnoreOf(r)[i]);
      }
    }
  }

  // The first bad path is the one reported.
  lemma FirstBadPathIsReported(kind: Kind, r: Resource, n: nat)
    requires r.drift.Some? && n < |r.drift.value.ignore|
    requires CheckPath(kind, r.drift.value.ignore[n]).Failure?
    requires forall i :: 0 <= i < n ==> CheckPath(kind, r.drift.value.ignore[i]).Success?
    ensures ConfigOf(kind, r) == Failure(CheckPath(kind, r.drift.value.ignore[n]).error)
  {
    EachFails(PathCheck(kind), r.drift.value.ignore, n);
  }

  // ---------------------------------------------------------------- observations

  datatype Observation = Observation(values: map<Path, Value>, unobserved: seq<Path>)

  function Reported(at: Value, paths: seq<Path>): set<Path> {
    set p | p in paths && GetValue(at, p).Found?
  }

  function Unreported(at: Value, paths: seq<Path>): seq<Path> {
    if paths == [] then []
    else
      var last := paths[|paths| - 1];
      Unreported(at, paths[..|paths| - 1]) + if GetValue(at, last).Found? then [] else [last]
  }

  function ObservationOf(at: Value, paths: seq<Path>): Observation {
    Observation(map p | p in Reported(at, paths) :: GetValue(at, p).value, Unreported(at, paths))
  }

  // The values of a capture all come from one tree, so it does not matter which of two
  // overlapping paths is written last.
  ghost predicate CapturedFrom(obs: Observation, seen: Value) {
    forall p :: p in obs.values ==> GetValue(seen, p) == Found(obs.values[p])
  }

  lemma ObservationStep(at: Value, paths: seq<Path>, i: nat)
    requires i < |paths|
    ensures var before := ObservationOf(at, paths[..i]);
      ObservationOf(at, paths[..i + 1]) ==
        if GetValue(at, paths[i]).Found? then before.(values := before.values[paths[i] := GetValue(at, paths[i]).value])
        else before.(unobserved := before.unobserved + [paths[i]])
  {
    ReportedStep(at, paths[..i], paths[i]);
    UnreportedStep(at, paths[..i], paths[i]);
    assert paths[..i + 1] == paths[..i] + [paths[i]];
  }

  lemma ReportedStep(at: Value, paths: seq<Path>, p: Path)
    ensures Reported(at, paths + [p]) == Reported(at, paths) + if GetValue(at, p).Found? then {p} else {}
  {}

  lemma UnreportedStep(at: Value, paths: seq<Path>, p: Path)
    ensures Unreported(at, paths + [p]) == Unreported(at, paths) + if GetValue(at, p).Found? then [] else [p]
  {
    assert (paths + [p])[..|paths|] == paths;
  }

  method Snapshot(at: Value, paths: seq<Path>) returns (captured: Observation)
    requires forall p :: p in paths ==> !GetValue(at, p).NotAnObject?
    ensures captured == ObservationOf(at, paths)
  {
    captured := Observation(map[], []);
    for i := 0 to |paths|
      invariant captured == ObservationOf(at, paths[..i])
    {
      ObservationStep(at, paths, i);
      // No error: on the way to the path the observation holds objects only.
      match GetValue(at, paths[i]) {
        case Found(v) =>
          captured := captured.(values := captured.values[paths[i] := v]);
        case _ =>
          captured := captured.(unobserved := captured.unobserved + [paths[i]]);
      }
    }
    assert paths[..|paths|] == paths;
  }

  // The spec of a resource with the captured values in place.
  function Substituted(spec: Value, seen: Value, paths: set<Path>): Value {
    OrObject(Overlay(Some(spec), seen, paths))
  }

  // The copy handed to the wrapped client; None if the substituted tree no longer
  // decodes into the type of the kind.
  function Shadow(kind: Kind, r: Resource, seen: Value, paths: set<Path>): Option<Resource> {
    var spec := Substituted(r.forProvider, seen, paths);
    if paths == {} || WellTyped(spec, kind.forProvider) then Some(r.(forProvider := spec)) else None
  }

  // The SetValue loop, in whatever order the map of captured values yields them.
  method SetCaptured(spec: Value, obs: Observation, ghost seen: Value) returns (shadow: Value)
    requires CapturedFrom(obs, seen)
    requires forall p :: p in obs.values ==> Admits(Some(spec), p)
    ensures shadow == Substituted(spec, seen, obs.values.Keys)
  {
    shadow := spec;
    var todo := obs.values.Keys;
    ghost var done: set<Path> := {};
    while todo != {}
      invariant todo + done == obs.values.Keys
      invariant shadow == Substituted(spec, seen, done)
      decreases todo
    {
      var path :| path in todo;
      SetOnOverlay(Some(spec), seen, done, path);
      // No error: on the way to the path the spec holds objects only.
      var next := SetValue(shadow, path, obs.values[path]);
      shadow := next.value;
      todo, done := todo - {path}, done + {path};
    }
  }

  method Apply(kind: Kind, r: Resource, obs: Observation, ghost seen: Value)
    returns (shadow: Option<Resource>)
    requires CapturedFrom(obs, seen)
    requires forall p :: p in obs.values ==> Admits(Some(r.forProvider), p)
    ensures shadow == Shadow(kind, r, seen, obs.values.Keys)
  {
    if |obs.values| == 0 {
      assert obs.values.Keys == {};
      return Some(r);
    }
    assert obs.values.Keys != {};
    var spec := SetCaptured(r.forProvider, obs, seen);
    return if WellTyped(spec, kind.forProvider) then Some(r.(forProvider := spec)) else None;
  }

  // ---------------------------------------------------------------- the wrapped client

  class Managed {
    var r: Resource

    constructor (r: Resource)
      ensures this.r == r
    {
      this.r := r;
    }
  }

  // What a call of the wrapped client leaves in the resource, and what it reports.
  datatype Reply = Reply(r: Resource, exists_: bool, upToDate: bool, failed: bool)

  datatype Call = ObserveCall(r: Resource) | CreateCall(r: Resource) | UpdateCall(r: Resource) | DisconnectCall

  // Any client at all: its replies may depend on the argument and on every earlier call.
  class Inner {
    const reply: (seq<Call>, Call) -> Reply
    var calls: seq<Call>

    constructor (reply: (seq<Call>, Call) -> Reply)
      ensures this.reply == reply && calls == []
    {
      this.reply, calls := reply, [];
    }

    method Invoke(call: Call, mg: Managed) returns (reply: Reply)
      requires call.ObserveCall? || call.CreateCall? || call.UpdateCall?
      requires call.r == mg.r
      modifies this, mg
      ensures reply == this.reply(old(calls), call)
      ensures calls == old(calls) + [call]
      ensures mg.r == reply.r
    {
      reply := this.reply(calls, call);
      calls := calls + [call];
      mg.r := reply.r;
    }

    method Disconnect()
      modifies this
      ensures calls == old(calls) + [DisconnectCall]
    {
      calls := calls + [DisconnectCall];
    }
  }

  // ---------------------------------------------------------------- one observation, decided

  // The wrapped client is asked a second time, on the shadow.
  predicate AsksAgain(cfg: Config, first: Reply) {
    cfg.mode != DISABLED && cfg.mode != WARN && cfg.ignorePaths != [] && !first.upToDate
  }

  function UpToDate(cfg: Config, first: Reply, second: Reply): bool {
    cfg.mode == DISABLED || cfg.mode == WARN || (if AsksAgain(cfg, first) then second.upToDate else first.upToDate)
  }

  // The resource after the wrapped client was asked once.
  function Conditioned(cfg: Config, first: Reply): Resource {
    var unobserved := Unreported(first.r.atProvider, cfg.ignorePaths);
    if cfg.mode == DISABLED then first.r
    else if cfg.mode == WARN then WithCondition(first.r, if first.upToDate then InSync else Drifted, [])
    else if unobserved != [] then WithCondition(first.r, IgnoredPathUnobserved, unobserved)
    else if cfg.ignorePaths != [] && first.upToDate then WithCondition(first.r, InSync, [])
    else first.r
  }

  function WithCondition(r: Resource, reason: Reason, paths: seq<Path>): Resource {
    r.(condition := Some(Condition(reason, paths)))
  }

  // What the wrapped client reported, and the paths it was captured for.
  datatype Capture = Capture(seen: Value, paths: seq<Path>)

  function CaptureOf(cfg: Config, first: Reply): Capture {
    Capture(first.r.atProvider, cfg.ignorePaths)
  }

  // A resource with the captured values pinned.
  function Pinned(kind: Kind, r: Resource, capture: Capture): Option<Resource> {
    Shadow(kind, r, capture.seen, Reported(capture.seen, capture.paths))
  }

  // ---------------------------------------------------------------- the decorator

  // What the decorator did, for the statements below.
  datatype Event =
    | Captured(capture: Capture)
    | Written(caller: Resource, cfg: Config, payload: Resource)
    | Dropped

  // The capture an Update would use: the last one since the last Disconnect.
  function LastCapture(log: seq<Event>): Option<Capture> {
    if log == [] then None
    else
      match log[|log| - 1]
      case Captured(capture) => Some(capture)
      case Written(_, _, _) => LastCapture(log[..|log| - 1])
      case Dropped => None
  }

  predicate Substitutes(cfg: Config) {
    cfg.mode == ENABLED && cfg.ignorePaths != []
  }

  // A write under an active ignore list follows a capture, and carries what that capture
  // holds on the paths it reports and the caller's values everywhere else.
  predicate Justified(kind: Kind, log: seq<Event>, e: Event) {
    e.Written? ==>
      && ConfigOf(kind, e.caller) == Success(e.cfg)
      && if Substitutes(e.cfg) then
           var capture := LastCapture(log);
           capture.Some? && Pinned(kind, e.caller, capture.value) == Some(e.payload)
         else e.payload == e.caller
  }

  predicate AllJustified(kind: Kind, log: seq<Event>) {
    log == [] ||
    (var before, e := log[..|log| - 1], log[|log| - 1]; AllJustified(kind, before) && Justified(kind, before, e))
  }

  lemma {:induction false} JustifiedAt(kind: Kind, log: seq<Event>, i: nat)
    requires AllJustified(kind, log) && i < |log|
    ensures Justified(kind, log[..i], log[i])
  {
    if i < |log| - 1 {
      JustifiedAt(kind, log[..|log| - 1], i);
      assert log[..|log| - 1][..i] == log[..i];
    }
  }

  lemma {:induction false} LastCaptureAt(log: seq<Event>) returns (j: nat)
    requires LastCapture(log).Some?
    ensures j < |log| && log[j] == Captured(LastCapture(log).value)
    ensures forall k :: j < k < |log| ==> log[k] != Dropped
  {
    j := |log| - 1;
    if !log[j].Captured? {
      j := LastCaptureAt(log[..j]);
    }
  }

  lemma LogGrows(kind: Kind, log: seq<Event>, e: Event)
    requires AllJustified(kind, log) && Justified(kind, log, e)
    ensures AllJustified(kind, log + [e])
    ensures LastCapture(log + [e]) == match e
                                      case Captured(capture) => Some(capture)
                                      case Written(_, _, _) => LastCapture(log)
                                      case Dropped => None
  {
    var grown := log + [e];
    assert grown[..|grown| - 1] == log;
  }

  // ---------------------------------------------------------------- the log and the calls

  // The call an event belongs to: the first question of an observation, a write, or the end
  // of a reconcile.
  predicate Reflects(kind: Kind, reply: (seq<Call>, Call) -> Reply, calls: seq<Call>, n: nat, e: Event)
    requires n < |calls|
  {
    match e
    case Captured(capture) => CapturedAt(kind, reply, calls, n) == Some(capture)
    case Written(_, _, payload) => calls[n] == UpdateCall(payload)
    case Dropped => calls[n] == DisconnectCall
  }

  // What an observation that began with this call captures.
  function CapturedAt(kind: Kind, reply: (seq<Call>, Call) -> Reply, calls: seq<Call>, n: nat): Option<Capture>
    requires n < |calls|
  {
    if !calls[n].ObserveCall? then None
    else
      var cfg, first := ConfigOf(kind, calls[n].r), reply(calls[..n], calls[n]);
      if cfg.Failure? || first.failed || !first.exists_ then None else Some(CaptureOf(cfg.value, first))
  }

  // A capture is made exactly of an answer that shows the resource, of what it reports.
  lemma CapturedExactly(kind: Kind, reply: (seq<Call>, Call) -> Reply, calls: seq<Call>, n: nat, capture: Capture)
    requires n < |calls|
    ensures CapturedAt(kind, reply, calls, n) == Some(capture) <==>
      && calls[n].ObserveCall?
      && ConfigOf(kind, calls[n].r).Success?
      && var first := reply(calls[..n], calls[n]);
         !first.failed && first.exists_ && capture == Capture(first.r.atProvider, ConfigOf(kind, calls[n].r).value.ignorePaths)
  {}

  predicate LeavesTrace(c: Call) {
    c.UpdateCall? || c.DisconnectCall?
  }

  // The log tells what the wrapped client was asked: event i belongs to call at[i], in this
  // order, and no write and no disconnect goes without one.
  predicate Accounted(kind: Kind, reply: (seq<Call>, Call) -> Reply, calls: seq<Call>, log: seq<Event>, at: seq<nat>)
    decreases |calls|
  {
    |at| == |log| &&
    if calls == [] then log == []
    else
      var last, top := |calls| - 1, |log| - 1;
      if log != [] && at[top] == last then
        Reflects(kind, reply, calls, last, log[top]) && Accounted(kind, reply, calls[..last], log[..top], at[..top])
      else !LeavesTrace(calls[last]) && Accounted(kind, reply, calls[..last], log, at)
  }

  lemma {:induction false} EventsBelong(
      kind: Kind, reply: (seq<Call>, Call) -> Reply, calls: seq<Call>, log: seq<Event>, at: seq<nat>, i: nat)
    requires Accounted(kind, reply, calls, log, at) && i < |log|
    ensures at[i] < |calls| && Reflects(kind, reply, calls, at[i], log[i])
    decreases |calls|
  {
    var last, top := |calls| - 1, |log| - 1;
    if at[top] != last {
      EventsBelong(kind, reply, calls[..last], log, at, i);
      assert calls[..last][..at[i]] == calls[..at[i]];
    } else if i < top {
      EventsBelong(kind, reply, calls[..last], log[..top], at[..top], i);
      assert calls[..last][..at[i]] == calls[..at[i]];
    }
  }

  lemma {:induction false} InOrder(
      kind: Kind, reply: (seq<Call>, Call) -> Reply, calls: seq<Call>, log: seq<Event>, at: seq<nat>, i: nat, j: nat)
    requires Accounted(kind, reply, calls, log, at) && i < j < |log|
    ensures at[i] < at[j]
    decreases |calls|
  {
    var last, top := |calls| - 1, |log| - 1;
    if at[top] != last {
      InOrder(kind, reply, calls[..last], log, at, i, j);
    } else if j < top {
      InOrder(kind, reply, calls[..last], log[..top], at[..top], i, j);
    } else {
      EventsBelong(kind, reply, calls[..last], log[..top], at[..top], i);
    }
  }

  lemma {:induction false} NoneMissing(
      kind: Kind, reply: (seq<Call>, Call) -> Reply, calls: seq<Call>, log: seq<Event>, at: seq<nat>, n: nat)
    returns (i: nat)
    requires Accounted(kind, reply, calls, log, at) && n < |calls| && LeavesTrace(calls[n])
    ensures i < |log| && at[i] == n
    decreases |calls|
  {
    var last, top := |calls| - 1, |log| - 1;
    if log == [] || at[top] != last {
      i := NoneMissing(kind, reply, calls[..last], log, at, n);
    } else if n < last {
      i := NoneMissing(kind, reply, calls[..last], log[..top], at[..top], n);
    } else {
      i := top;
    }
  }

  lemma CallAdded(kind: Kind, reply: (seq<Call>, Call) -> Reply, calls: seq<Call>, log: seq<Event>, at: seq<nat>, c: Call)
    requires Accounted(kind, reply, calls, log, at) && !LeavesTrace(c)
    ensures Accounted(kind, reply, calls + [c], log, at)
  {
    assert (calls + [c])[..|calls|] == calls;
    if log != [] {
      EventsBelong(kind, reply, calls, log, at, |log| - 1);
    }
  }

  lemma EventAdded(
      kind: Kind, reply: (seq<Call>, Call) -> Reply, calls: seq<Call>, log: seq<Event>, at: seq<nat>, e: Event)
    requires calls != [] && Reflects(kind, reply, calls, |calls| - 1, e)
    requires Accounted(kind, reply, calls[..|calls| - 1], log, at)
    ensures Accounted(kind, reply, calls, log + [e], at + [|calls| - 1])
  {
    assert (log + [e])[..|log|] == log && (at + [|calls| - 1])[..|at|] == at;
  }

  // The write of call n: if it substitutes, an earlier observation was captured and nothing
  // disconnected since, and the payload is the caller's resource with what that observation
  // was answered pinned at the paths it was configured for.
  ghost predicate Covered(
      kind: Kind, reply: (seq<Call>, Call) -> Reply, calls: seq<Call>, n: nat, caller: Resource)
    requires n < |calls| && calls[n].UpdateCall?
  {
    && ConfigOf(kind, caller).Success?
    && if Substitutes(ConfigOf(kind, caller).value) then exists m :: Supplies(kind, reply, calls, m, n, caller)
       else calls[n].r == caller
  }

  predicate Supplies(
      kind: Kind, reply: (seq<Call>, Call) -> Reply, calls: seq<Call>, m: nat, n: nat, caller: Resource)
    requires n < |calls| && calls[n].UpdateCall?
  {
    && m < n
    && (forall k :: m < k < n ==> calls[k] != DisconnectCall)
    && CapturedAt(kind, reply, calls, m).Some?
    && Pinned(kind, caller, CapturedAt(kind, reply, calls, m).value) == Some(calls[n].r)
  }

  // Whatever sequence of calls a client has been through, each write the wrapped client
  // received is covered.
  lemma EveryWriteIsJustified(e: External, n: nat)
    requires e.Valid() && n < |e.inner.calls| && e.inner.calls[n].UpdateCall?
    ensures exists i :: 0 <= i < |e.log| && e.at[i] == n && e.log[i].Written?
                        && Covered(e.kind, e.inner.reply, e.inner.calls, n, e.log[i].caller)
  {
    var i := NoneMissing(e.kind, e.inner.reply, e.inner.calls, e.log, e.at, n);
    EventsBelong(e.kind, e.inner.reply, e.inner.calls, e.log, e.at, i);
    WriteIsCovered(e.kind, e.inner.reply, e.inner.calls, e.log, e.at, i);
  }

  lemma WriteIsCovered(
      kind: Kind, reply: (seq<Call>, Call) -> Reply, calls: seq<Call>, log: seq<Event>, at: seq<nat>, i: nat)
    requires Accounted(kind, reply, calls, log, at) && AllJustified(kind, log) && i < |log|
    requires log[i].Written? && at[i] < |calls| && calls[at[i]] == UpdateCall(log[i].payload)
    ensures Covered(kind, reply, calls, at[i], log[i].caller)
  {
    var e := log[i];
    JustifiedAt(kind, log, i);
    if Substitutes(e.cfg) {
      var j := CaptureOfWrite(kind, log, i);
      CaptureSupplies(kind, reply, calls, log, at, j, i);
      SuppliedIsCovered(kind, reply, calls, at[j], at[i], e.caller, e.cfg);
    }
  }

  lemma CaptureOfWrite(kind: Kind, log: seq<Event>, i: nat) returns (j: nat)
    requires i < |log| && log[i].Written? && Substitutes(log[i].cfg) && Justified(kind, log[..i], log[i])
    ensures j < i && log[j].Captured? && Pinned(kind, log[i].caller, log[j].capture) == Some(log[i].payload)
    ensures forall k :: j < k < i ==> log[k] != Dropped
  {
    j := LastCaptureAt(log[..i]);
    forall k | j < k < i ensures log[k] != Dropped {
      assert log[..i][k] == log[k];
    }
  }

  lemma SuppliedIsCovered(
      kind: Kind, reply: (seq<Call>, Call) -> Reply, calls: seq<Call>, m: nat, n: nat, caller: Resource, cfg: Config)
    requires n < |calls| && calls[n].UpdateCall? && ConfigOf(kind, caller) == Success(cfg)
    requires Supplies(kind, reply, calls, m, n, caller)
    ensures Substitutes(cfg) ==> Covered(kind, reply, calls, n, caller)
  {}

  lemma CaptureSupplies(
      kind: Kind, reply: (seq<Call>, Call) -> Reply, calls: seq<Call>, log: seq<Event>, at: seq<nat>, j: nat, i: nat)
    requires Accounted(kind, reply, calls, log, at) && j < i < |log| && log[j].Captured? && log[i].Written?
    requires at[i] < |calls| && calls[at[i]] == UpdateCall(log[i].payload)
    requires Pinned(kind, log[i].caller, log[j].capture) == Some(log[i].payload)
    requires forall k :: j < k < i ==> log[k] != Dropped
    ensures Supplies(kind, reply, calls, at[j], at[i], log[i].caller)
  {
    EventsBelong(kind, reply, calls, log, at, j);
    InOrder(kind, reply, calls, log, at, j, i);
    forall n | at[j] < n < at[i] ensures calls[n] != DisconnectCall {
      if calls[n] == DisconnectCall {
        DropIsNoted(kind, reply, calls, log, at, j, i, n);
        assert false;
      }
    }
  }

  lemma DropIsNoted(
      kind: Kind, reply: (seq<Call>, Call) -> Reply, calls: seq<Call>, log: seq<Event>, at: seq<nat>, j: nat, i: nat, n: nat)
    requires Accounted(kind, reply, calls, log, at) && j < i < |log|
    requires at[j] < n < at[i] && n < |calls| && calls[n] == DisconnectCall
    ensures exists k :: j < k < i && log[k] == Dropped
  {
    var k := NoneMissing(kind, reply, calls, log, at, n);
    EventsBelong(kind, reply, calls, log, at, k);
    if k < j {
      InOrder(kind, reply, calls, log, at, k, j);
    } else if i < k {
      InOrder(kind, reply, calls, log, at, i, k);
    }
    assert log[k] == Dropped;
  }

  lemma Regroup(calls: seq<Call>, c: Call, more: seq<Call>)
    ensures (calls + [c]) + more == calls + ([c] + more)
  {}

  lemma LastIsCaptured(log: seq<Event>, capture: Capture)
    ensures LastCapture(log + [Captured(capture)]) == Some(capture)
  {}

  // The kinds the decorator is for: on every path it accepts, reading and writing values of
  // spec and status is as the walk over their types says. And the types of the Go fields
  // hold of every reply.
  ghost predicate Sound(kind: Kind, reply: (seq<Call>, Call) -> Reply) {
    && (forall p :: Accepted(kind, p) ==> Readable(kind.forProvider, p) && Readable(kind.atProvider, p))
    && forall calls: seq<Call>, call: Call ::
         !call.DisconnectCall? && Typed(call.r, kind) ==> Typed(reply(calls, call).r, kind)
  }

  datatype Observed = Observed(exists_: bool, upToDate: bool)

  datatype Fault = Misconfigured(why: ConfigError) | InnerFailed | NotRebuilt | NeverObserved

  // Everything one Observe does: its result, the resource after it, the calls it makes of
  // the wrapped client, and whether it captures.
  datatype Outcome = Outcome(result: Result<Observed, Fault>, r: Resource, asked: seq<Call>, captured: seq<Event>)

  function ObserveOutcome(kind: Kind, reply: (seq<Call>, Call) -> Reply, calls: seq<Call>, r: Resource): Outcome {
    match ConfigOf(kind, r)
    case Failure(why) => Outcome(Failure(Misconfigured(why)), r, [], [])
    case Success(cfg) => AskOutcome(kind, reply, calls, cfg, r)
  }

  function AskOutcome(kind: Kind, reply: (seq<Call>, Call) -> Reply, calls: seq<Call>, cfg: Config, r: Resource): Outcome {
    var ask := ObserveCall(r);
    var first := reply(calls, ask);
    var rest := ConcludeOutcome(kind, reply, calls + [ask], cfg, first);
    rest.(asked := [ask] + rest.asked, captured := CapturedBy(cfg, first))
  }

  // What an existing resource reports is captured before anything can overwrite it.
  function CapturedBy(cfg: Config, first: Reply): seq<Event> {
    if first.failed || !first.exists_ then [] else [Captured(CaptureOf(cfg, first))]
  }

  // What becomes of the first answer.
  function ConcludeOutcome(kind: Kind, reply: (seq<Call>, Call) -> Reply, calls: seq<Call>, cfg: Config, first: Reply): Outcome {
    if first.failed then Outcome(Failure(InnerFailed), first.r, [], [])
    else if !first.exists_ then Outcome(Success(Observed(false, first.upToDate)), first.r, [], [])
    else JudgeOutcome(kind, reply, calls, cfg, first)
  }

  // From the moment what an existing resource reports has been captured.
  function JudgeOutcome(kind: Kind, reply: (seq<Call>, Call) -> Reply, calls: seq<Call>, cfg: Config, first: Reply): Outcome {
    var once := Conditioned(cfg, first);
    if !AsksAgain(cfg, first) then Outcome(Success(Observed(true, UpToDate(cfg, first, first))), once, [], [])
    else
      match Pinned(kind, once, CaptureOf(cfg, first))
      case None => Outcome(Failure(NotRebuilt), once, [], [])
      case Some(shadow) =>
        var again := ObserveCall(shadow);
        var second := reply(calls, again);
        if second.failed then Outcome(Failure(InnerFailed), once, [again], [])
        else
          Outcome(
            Success(Observed(true, UpToDate(cfg, first, second))),
            if second.upToDate then WithCondition(once, DriftIgnored, cfg.ignorePaths) else WithCondition(once, Drifted, []),
            [again],
            [])
  }

  // Everything one Update does, given the capture it finds.
  function UpdateOutcome(kind: Kind, reply: (seq<Call>, Call) -> Reply, calls: seq<Call>, capture: Option<Capture>, r: Resource)
    : WriteOutcome
  {
    match ConfigOf(kind, r)
    case Failure(why) => NotWritten(Misconfigured(why))
    case Success(cfg) =>
      if !Substitutes(cfg) then
        var done := reply(calls, UpdateCall(r));
        Sent(Written(r, cfg, r), done.r, done.failed)
      else if capture.None? then NotWritten(NeverObserved)
      else
        match Pinned(kind, r, capture.value)
        case None => NotWritten(NotRebuilt)
        case Some(payload) =>
          var done := reply(calls, UpdateCall(payload));
          Sent(Written(r, cfg, payload), r.(annotations := done.r.annotations), done.failed)
  }

  // A refused write makes no call and leaves the resource alone.
  datatype WriteOutcome = NotWritten(why: Fault) | Sent(event: Event, after: Resource, failed: bool)

  class External {
    const kind: Kind
    const inner: Inner
    var obs: Option<Observation>
    ghost var log: seq<Event>
    ghost var at: seq<nat>

    ghost predicate Valid()
      reads this, inner
    {
      && Sound(kind, inner.reply)
      && AllJustified(kind, log)
      && Accounted(kind, inner.reply, inner.calls, log, at)
      && match LastCapture(log)
         case None => obs == None
         case Some(capture) =>
           && obs == Some(ObservationOf(capture.seen, capture.paths))
           && forall p :: p in capture.paths ==> Accepted(kind, p)
    }

    constructor (kind: Kind, inner: Inner)
      requires Sound(kind, inner.reply) && inner.calls == []
      ensures Valid() && this.kind == kind && this.inner == inner && log == []
    {
      this.kind, this.inner, obs, log, at := kind, inner, None, [], [];
    }

    method Disconnect()
      requires Valid()
      modifies this, inner
      ensures Valid() && log == old(log) + [Dropped] && obs == None
    {
      LogGrows(kind, log, Dropped);
      ghost var before := inner.calls;
      obs := None;
      inner.Disconnect();
      assert inner.calls[..|inner.calls| - 1] == before;
      Note(Dropped);
    }

    // Enters an event that belongs to the last call.
    ghost method Note(e: Event)
      requires inner.calls != [] && Reflects(kind, inner.reply, inner.calls, |inner.calls| - 1, e)
      requires Accounted(kind, inner.reply, inner.calls[..|inner.calls| - 1], log, at)
      modifies this`log, this`at
      ensures log == old(log) + [e] && Accounted(kind, inner.reply, inner.calls, log, at)
    {
      EventAdded(kind, inner.reply, inner.calls, log, at, e);
      log, at := log + [e], at + [|inner.calls| - 1];
    }

    method Observe(mg: Managed) returns (result: Result<Observed, Fault>)
      requires Valid() && Typed(mg.r, kind)
      modifies this, inner, mg
      ensures Valid() && Typed(mg.r, kind)
      ensures var outcome := ObserveOutcome(kind, inner.reply, old(inner.calls), old(mg.r));
        && result == outcome.result
        && mg.r == outcome.r
        && inner.calls == old(inner.calls) + outcome.asked
        && log == old(log) + outcome.captured
    {
      var read := ReadConfig(kind, mg.r);
      if read.Failure? {
        return Failure(Misconfigured(read.error));
      }
      AcceptedPaths(kind, mg.r);
      result := ObserveUnder(mg, read.value);
    }

    method ObserveUnder(mg: Managed, cfg: Config) returns (result: Result<Observed, Fault>)
      requires Valid() && Typed(mg.r, kind) && ConfigOf(kind, mg.r) == Success(cfg)
      requires forall p :: p in cfg.ignorePaths ==> Accepted(kind, p)
      modifies this, inner, mg
      ensures Valid() && Typed(mg.r, kind)
      ensures var outcome := AskOutcome(kind, inner.reply, old(inner.calls), cfg, old(mg.r));
        && result == outcome.result
        && mg.r == outcome.r
        && inner.calls == old(inner.calls) + outcome.asked
        && log == old(log) + outcome.captured
    {
      ghost var before, ask := inner.calls, ObserveCall(mg.r);
      var first := AskAndCapture(mg, cfg);
      result := Conclude(mg, cfg, first);
      Regroup(before, ask, ConcludeOutcome(kind, inner.reply, before + [ask], cfg, first).asked);
    }

    method Conclude(mg: Managed, cfg: Config, first: Reply) returns (result: Result<Observed, Fault>)
      requires Valid() && Typed(mg.r, kind) && mg.r == first.r
      requires !first.failed && first.exists_ ==> LastCapture(log) == Some(CaptureOf(cfg, first))
      modifies inner, mg
      ensures Valid() && Typed(mg.r, kind)
      ensures var outcome := ConcludeOutcome(kind, inner.reply, old(inner.calls), cfg, first);
        result == outcome.result && mg.r == outcome.r && inner.calls == old(inner.calls) + outcome.asked
    {
      if first.failed {
        return Failure(InnerFailed);
      }
      if !first.exists_ {
        return Success(Observed(false, first.upToDate));
      }
      result := Judge(mg, cfg, first);
    }

    // The first question, and the capture.
    method AskAndCapture(mg: Managed, cfg: Config) returns (first: Reply)
      requires Valid() && Typed(mg.r, kind) && ConfigOf(kind, mg.r) == Success(cfg)
      requires forall p :: p in cfg.ignorePaths ==> Accepted(kind, p)
      modifies this, inner, mg
      ensures Valid() && Typed(mg.r, kind)
      ensures first == inner.reply(old(inner.calls), ObserveCall(old(mg.r)))
      ensures mg.r == first.r && inner.calls == old(inner.calls) + [ObserveCall(old(mg.r))]
      ensures log == old(log) + CapturedBy(cfg, first)
      ensures !first.failed && first.exists_ ==> LastCapture(log) == Some(CaptureOf(cfg, first))
    {
      first := Ask(mg);
      if first.failed || !first.exists_ {
        return;
      }
      assert inner.calls[..|inner.calls| - 1] == old(inner.calls);
      CaptureIgnored(mg, cfg, first);
      LastIsCaptured(old(log), CaptureOf(cfg, first));
    }

    // The wrapped client was asked just now, found the resource, and nothing came of it yet.
    ghost predicate Answered(cfg: Config, first: Reply)
      reads this, inner
    {
      inner.calls != [] &&
      var last := |inner.calls| - 1;
      && inner.calls[last].ObserveCall?
      && ConfigOf(kind, inner.calls[last].r) == Success(cfg)
      && first == inner.reply(inner.calls[..last], inner.calls[last])
      && !first.failed && first.exists_
      && Accounted(kind, inner.reply, inner.calls[..last], log, at)
    }

    method Judge(mg: Managed, cfg: Config, first: Reply) returns (result: Result<Observed, Fault>)
      requires Valid() && Typed(mg.r, kind) && mg.r == first.r && LastCapture(log) == Some(CaptureOf(cfg, first))
      modifies inner, mg
      ensures Valid() && Typed(mg.r, kind)
      ensures var outcome := JudgeOutcome(kind, inner.reply, old(inner.calls), cfg, first);
        && result == outcome.result
        && mg.r == outcome.r
        && inner.calls == old(inner.calls) + outcome.asked
    {
      mg.r := Conditioned(cfg, first);
      if !AsksAgain(cfg, first) {
        return Success(Observed(true, UpToDate(cfg, first, first)));
      }
      var shadow := Copy(mg);
      if shadow == null {
        return Failure(NotRebuilt);
      }
      var second := Ask(shadow);
      if second.failed {
        return Failure(InnerFailed);
      }
      mg.r := if second.upToDate then WithCondition(mg.r, DriftIgnored, cfg.ignorePaths) else WithCondition(mg.r, Drifted, []);
      return Success(Observed(true, second.upToDate));
    }

    method Ask(mg: Managed) returns (reply: Reply)
      requires Valid() && Typed(mg.r, kind)
      modifies inner, mg
      ensures Valid() && Typed(mg.r, kind)
      ensures reply == inner.reply(old(inner.calls), ObserveCall(old(mg.r)))
      ensures mg.r == reply.r && inner.calls == old(inner.calls) + [ObserveCall(old(mg.r))]
    {
      CallAdded(kind, inner.reply, inner.calls, log, at, ObserveCall(mg.r));
      reply := inner.Invoke(ObserveCall(mg.r), mg);
    }

    // Remembers what was observed at the ignored paths.
    method CaptureIgnored(mg: Managed, cfg: Config, ghost first: Reply)
      requires Valid() && Typed(mg.r, kind) && mg.r == first.r && Answered(cfg, first)
      requires forall p :: p in cfg.ignorePaths ==> Accepted(kind, p)
      modifies this
      ensures Valid() && log == old(log) + [Captured(Capture(mg.r.atProvider, cfg.ignorePaths))]
    {
      forall p | p in cfg.ignorePaths ensures !GetValue(mg.r.atProvider, p).NotAnObject? {
        ResolvedPathIsReadable(mg.r.atProvider, kind.atProvider, p);
      }
      var captured := Snapshot(mg.r.atProvider, cfg.ignorePaths);
      LogGrows(kind, log, Captured(Capture(mg.r.atProvider, cfg.ignorePaths)));
      obs := Some(captured);
      Note(Captured(Capture(mg.r.atProvider, cfg.ignorePaths)));
    }

    // A deep copy of mg with the captured values substituted.
    method Copy(mg: Managed) returns (shadow: Managed?)
      requires Valid() && Typed(mg.r, kind) && obs.Some?
      ensures shadow != null ==> fresh(shadow)
      ensures (if shadow == null then None else Some(shadow.r)) == Pinned(kind, mg.r, LastCapture(log).value)
    {
      ghost var capture := LastCapture(log).value;
      forall p | p in capture.paths ensures Admits(Some(mg.r.forProvider), p) {
        ResolvedPathIsReadable(mg.r.forProvider, kind.forProvider, p);
      }
      assert obs.value.values.Keys == Reported(capture.seen, capture.paths);
      var copy := Apply(kind, mg.r, obs.value, capture.seen);
      shadow := null;
      if copy.Some? {
        shadow := new Managed(copy.value);
      }
    }

    method Update(mg: Managed) returns (result: Result<(), Fault>)
      requires Valid() && Typed(mg.r, kind)
      modifies this, inner, mg
      ensures Valid()
      ensures match UpdateOutcome(kind, inner.reply, old(inner.calls), LastCapture(old(log)), old(mg.r))
        case NotWritten(why) =>
          result == Failure(why) && mg.r == old(mg.r) && log == old(log) && inner.calls == old(inner.calls)
        case Sent(event, after, failed) =>
          && result == (if failed then Failure(InnerFailed) else Success(()))
          && mg.r == after
          && log == old(log) + [event]
          && inner.calls == old(inner.calls) + [UpdateCall(event.payload)]
    {
      var read := ReadConfig(kind, mg.r);
      if read.Failure? {
        return Failure(Misconfigured(read.error));
      }
      if !Substitutes(read.value) {
        var done := Write(mg, mg, read.value);
        return if done.failed then Failure(InnerFailed) else Success(());
      }
      if obs.None? {
        return Failure(NeverObserved);
      }
      var shadow := Copy(mg);
      if shadow == null {
        return Failure(NotRebuilt);
      }
      var done := Write(shadow, mg, read.value);
      mg.r := mg.r.(annotations := shadow.r.annotations);
      return if done.failed then Failure(InnerFailed) else Success(());
    }

    // The wrapped client's Update of `target`, for the write `caller` asked for.
    method Write(target: Managed, caller: Managed, cfg: Config) returns (reply: Reply)
      requires Valid() && Justified(kind, log, Event.Written(caller.r, cfg, target.r))
      modifies this, inner, target
      ensures Valid()
      ensures reply == inner.reply(old(inner.calls), UpdateCall(old(target.r))) && target.r == reply.r
      ensures log == old(log) + [Event.Written(old(caller.r), cfg, old(target.r))]
      ensures inner.calls == old(inner.calls) + [UpdateCall(old(target.r))]
      ensures obs == old(obs)
    {
      LogGrows(kind, log, Event.Written(caller.r, cfg, target.r));
      ghost var event := Event.Written(caller.r, cfg, target.r);
      ghost var before := inner.calls;
      reply := inner.Invoke(UpdateCall(target.r), target);
      assert inner.calls[..|inner.calls| - 1] == before;
      Note(event);
    }

    // The seed is the spec: nothing is substituted.
    method Create(mg: Managed) returns (reply: Reply)
      requires Valid()
      modifies inner, mg
      ensures Valid() && log == old(log)
      ensures reply == inner.reply(old(inner.calls), CreateCall(old(mg.r))) && mg.r == reply.r
      ensures inner.calls == old(inner.calls) + [CreateCall(old(mg.r))]
    {
      CallAdded(kind, inner.reply, inner.calls, log, at, CreateCall(mg.r));
      reply := inner.Invoke(CreateCall(mg.r), mg);
    }
  }

  // ---------------------------------------------------------------- what a write carries

  // On a path the capture reports, and below it, the payload reads as the observation did.
  // On paths unrelated to the reported ones it reads as the caller's spec. The rest of
  // the resource is the caller's.
  lemma PayloadReads(kind: Kind, r: Resource, capture: Capture, q: Path)
    requires Typed(r, kind) && forall p :: p in capture.paths ==> Readable(kind.forProvider, p)
    requires Pinned(kind, r, capture).Some?
    ensures var payload := Pinned(kind, r, capture).value;
      && payload == r.(forProvider := payload.forProvider)
      && ((exists p :: p in Reported(capture.seen, capture.paths) && p <= q) ==>
            GetValue(payload.forProvider, q) == GetValue(capture.seen, q))
      && ((forall p :: p in Reported(capture.seen, capture.paths) ==> !(p <= q) && !(q <= p)) ==>
            GetValue(payload.forProvider, q) == GetValue(r.forProvider, q))
  {
    var paths := Reported(capture.seen, capture.paths);
    forall p | p in paths ensures Admits(Some(r.forProvider), p) {
      ResolvedPathIsReadable(r.forProvider, kind.forProvider, p);
    }
    if p :| p in paths && p <= q {
      OverlayCovers(Some(r.forProvider), capture.seen, paths, p, q);
      assert Overlay(Some(r.forProvider), capture.seen, paths).Some?;
    } else if forall p :: p in paths ==> !(p <= q) && !(q <= p) {
      OverlaySpares(Some(r.forProvider), capture.seen, paths, q);
      assert Overlay(Some(r.forProvider), capture.seen, paths).Some?;
    }
  }

  // The payload does not depend on what status holds by the time of the write.
  lemma PayloadIgnoresStatus(kind: Kind, r: Resource, capture: Capture, at: Value)
    ensures Pinned(kind, r.(atProvider := at), capture) ==
      match Pinned(kind, r, capture)
      case None => None
      case Some(payload) => Some(payload.(atProvider := at))
  {}

  // After a Disconnect, and before the next capture, an Update with ignored paths writes
  // nothing, whatever else was called in between.
  lemma NoWriteAfterDisconnect(kind: Kind, reply: (seq<Call>, Call) -> Reply, calls: seq<Call>,
                               log: seq<Event>, since: seq<Event>, r: Resource)
    requires forall e :: e in since ==> !e.Captured?
    requires ConfigOf(kind, r).Success? && Substitutes(ConfigOf(kind, r).value)
    ensures UpdateOutcome(kind, reply, calls, LastCapture(log + [Dropped] + since), r) == NotWritten(NeverObserved)
  {
    NothingCaptured(log, since);
  }

  lemma {:induction false} NothingCaptured(log: seq<Event>, since: seq<Event>)
    requires forall e :: e in since ==> !e.Captured?
    ensures LastCapture(log + [Dropped] + since) == None
  {
    var all := log + [Dropped] + since;
    if since == [] {
      assert all[|all| - 1] == Dropped;
    } else {
      assert all[|all| - 1] == since[|since| - 1];
      assert all[..|all| - 1] == log + [Dropped] + since[..|since| - 1];
      NothingCaptured(log, since[..|since| - 1]);
    }
  }

  lemma JudgeLeavesSpec(kind: Kind, reply: (seq<Call>, Call) -> Reply, calls: seq<Call>, cfg: Config, first: Reply)
    ensures JudgeOutcome(kind, reply, calls, cfg, first).r.forProvider == first.r.forProvider
  {}

  // Observing never changes the spec: it is whatever the wrapped client's first answer
  // left there, and the caller's own if the client was not asked.
  lemma ObserveLeavesSpec(kind: Kind, reply: (seq<Call>, Call) -> Reply, calls: seq<Call>, r: Resource)
    ensures var outcome := ObserveOutcome(kind, reply, calls, r);
      outcome.r.forProvider == if outcome.asked == [] then r.forProvider else reply(calls, ObserveCall(r)).r.forProvider
  {
    if ConfigOf(kind, r).Success? {
      JudgeLeavesSpec(kind, reply, calls + [ObserveCall(r)], ConfigOf(kind, r).value, reply(calls, ObserveCall(r)));
    }
  }

  // ---------------------------------------------------------------- what an observation is

  // Of these paths the ones nothing is reported for.
  ghost predicate AreUnreported(at: Value, paths: seq<Path>, unobserved: seq<Path>) {
    forall p :: p in unobserved <==> p in paths && !GetValue(at, p).Found?
  }

  lemma {:induction false} UnreportedAre(at: Value, paths: seq<Path>)
    ensures AreUnreported(at, paths, Unreported(at, paths))
  {
    if paths != [] {
      var front, last := paths[..|paths| - 1], paths[|paths| - 1];
      UnreportedAre(at, front);
      assert paths == front + [last];
    }
  }

  lemma NoneUnreported(at: Value, paths: seq<Path>)
    ensures Unreported(at, paths) == [] <==> forall p :: p in paths ==> GetValue(at, p).Found?
  {
    UnreportedAre(at, paths);
    assert Unreported(at, paths) != [] ==> Unreported(at, paths)[0] in Unreported(at, paths);
  }

  // A configuration that does not read, or a first answer that fails or finds nothing.
  lemma ObservationStops(kind: Kind, reply: (seq<Call>, Call) -> Reply, calls: seq<Call>, r: Resource)
    ensures var o, first := ObserveOutcome(kind, reply, calls, r), reply(calls, ObserveCall(r));
      && (ConfigOf(kind, r).Failure? ==> o == Outcome(Failure(Misconfigured(ConfigOf(kind, r).error)), r, [], []))
      && (ConfigOf(kind, r).Success? && first.failed ==> o == Outcome(Failure(InnerFailed), first.r, [ObserveCall(r)], []))
      && (ConfigOf(kind, r).Success? && !first.failed && !first.exists_ ==>
            o == Outcome(Success(Observed(false, first.upToDate)), first.r, [ObserveCall(r)], []))
  {}

  // The resource is there. What is reported is captured for the configured paths, and only
  // the condition of the resource is touched.
  lemma ObservationCaptures(kind: Kind, reply: (seq<Call>, Call) -> Reply, calls: seq<Call>, r: Resource)
    requires ConfigOf(kind, r).Success?
    requires var first := reply(calls, ObserveCall(r)); !first.failed && first.exists_
    ensures var o, first := ObserveOutcome(kind, reply, calls, r), reply(calls, ObserveCall(r));
      && o.captured == [Captured(Capture(first.r.atProvider, ConfigOf(kind, r).value.ignorePaths))]
      && o.r == first.r.(condition := o.r.condition)
      && o.asked != [] && o.asked[0] == ObserveCall(r)
  {}

  // Drift is neither corrected in mode warn nor in mode disabled, whatever is ignored: the
  // verdict is up to date, after one question. Only warn tells.
  lemma WarnAndDisabledNeverCorrect(kind: Kind, reply: (seq<Call>, Call) -> Reply, calls: seq<Call>, r: Resource)
    requires ConfigOf(kind, r).Success? && ConfigOf(kind, r).value.mode in ["warn", "disabled"]
    requires var first := reply(calls, ObserveCall(r)); !first.failed && first.exists_
    ensures var o, first := ObserveOutcome(kind, reply, calls, r), reply(calls, ObserveCall(r));
      && o.result == Success(Observed(true, true)) && o.asked == [ObserveCall(r)]
      && o.r.condition ==
           if ConfigOf(kind, r).value.mode == "disabled" then first.r.condition
           else Some(Condition(if first.upToDate then InSync else Drifted, []))
  {
    ModesDiffer();
  }

  lemma ModesDiffer()
    ensures "warn" != "disabled" && "warn" != "enabled" && "disabled" != "enabled"
  {
    assert |"warn"| == 4 && |"disabled"| == 8 && |"enabled"| == 7;
  }

  // In any other mode with nothing ignored, the wrapped client's answer is the verdict.
  lemma NothingIgnoredPassesThrough(kind: Kind, reply: (seq<Call>, Call) -> Reply, calls: seq<Call>, r: Resource)
    requires ConfigOf(kind, r).Success? && ConfigOf(kind, r).value.mode !in ["warn", "disabled"]
    requires ConfigOf(kind, r).value.ignorePaths == []
    requires var first := reply(calls, ObserveCall(r)); !first.failed && first.exists_
    ensures var o, first := ObserveOutcome(kind, reply, calls, r), reply(calls, ObserveCall(r));
      && o.result == Success(Observed(true, first.upToDate)) && o.asked == [ObserveCall(r)]
      && o.r == first.r
  {}

  // With ignored paths the resource is up to date if the wrapped client says so at once, and
  // is not asked again then. A path nothing is reported for is told.
  lemma InSyncIsNotAskedAgain(kind: Kind, reply: (seq<Call>, Call) -> Reply, calls: seq<Call>, r: Resource)
    requires ConfigOf(kind, r).Success? && ConfigOf(kind, r).value.mode !in ["warn", "disabled"]
    requires ConfigOf(kind, r).value.ignorePaths != []
    requires var first := reply(calls, ObserveCall(r)); !first.failed && first.exists_ && first.upToDate
    ensures var o, first := ObserveOutcome(kind, reply, calls, r), reply(calls, ObserveCall(r));
      var paths := ConfigOf(kind, r).value.ignorePaths;
      && o.result == Success(Observed(true, true)) && o.asked == [ObserveCall(r)]
      && o.r.condition.Some?
      && (if forall p :: p in paths ==> GetValue(first.r.atProvider, p).Found? then o.r.condition.value == Condition(InSync, [])
          else o.r.condition.value.reason == IgnoredPathUnobserved
               && AreUnreported(first.r.atProvider, paths, o.r.condition.value.paths))
  {
    UnreportedAre(reply(calls, ObserveCall(r)).r.atProvider, ConfigOf(kind, r).value.ignorePaths);
    NoneUnreported(reply(calls, ObserveCall(r)).r.atProvider, ConfigOf(kind, r).value.ignorePaths);
  }

  // Otherwise it is asked again, on a copy that differs in the pinned values and in the
  // condition only, and the second answer decides.
  lemma DriftIsAskedAgain(kind: Kind, reply: (seq<Call>, Call) -> Reply, calls: seq<Call>, r: Resource)
    requires ConfigOf(kind, r).Success? && ConfigOf(kind, r).value.mode !in ["warn", "disabled"]
    requires ConfigOf(kind, r).value.ignorePaths != []
    requires var first := reply(calls, ObserveCall(r)); !first.failed && first.exists_ && !first.upToDate
    ensures var o, first := ObserveOutcome(kind, reply, calls, r), reply(calls, ObserveCall(r));
      var paths := ConfigOf(kind, r).value.ignorePaths;
      match Pinned(kind, first.r, Capture(first.r.atProvider, paths))
      case None => o.result == Failure(NotRebuilt) && o.asked == [ObserveCall(r)]
      case Some(pinned) =>
        && |o.asked| == 2 && o.asked[1].ObserveCall?
        && o.asked[1].r.(condition := pinned.condition) == pinned
        && var second := reply(calls + [ObserveCall(r)], o.asked[1]);
        if second.failed then o.result == Failure(InnerFailed)
        else
          && o.result == Success(Observed(true, second.upToDate))
          && o.r.condition == Some(if second.upToDate then Condition(DriftIgnored, paths) else Condition(Drifted, []))
  {
    var first := reply(calls, ObserveCall(r));
    PinnedKeepsCondition(kind, first.r, CaptureOf(ConfigOf(kind, r).value, first), Conditioned(ConfigOf(kind, r).value, first).condition);
  }

  lemma PinnedKeepsCondition(kind: Kind, r: Resource, capture: Capture, condition: Option<Condition>)
    ensures Pinned(kind, r.(condition := condition), capture) ==
      match Pinned(kind, r, capture)
      case None => None
      case Some(pinned) => Some(pinned.(condition := condition))
  {}

  // ---------------------------------------------------------------- what an update is

  // Outside mode enabled, and with nothing ignored, the caller's resource goes through.
  lemma PlainUpdatePassesThrough(
      kind: Kind, reply: (seq<Call>, Call) -> Reply, calls: seq<Call>, capture: Option<Capture>, r: Resource)
    requires ConfigOf(kind, r).Success?
    requires ConfigOf(kind, r).value.mode != "enabled" || ConfigOf(kind, r).value.ignorePaths == []
    ensures var done := reply(calls, UpdateCall(r));
      UpdateOutcome(kind, reply, calls, capture, r) ==
        Sent(Event.Written(r, ConfigOf(kind, r).value, r), done.r, done.failed)
  {}

  // In mode enabled with something ignored, nothing is written without a capture, and with
  // one the pinned copy is; of what the wrapped client does to it only the annotations stay.
  lemma IgnoredUpdatePins(
      kind: Kind, reply: (seq<Call>, Call) -> Reply, calls: seq<Call>, capture: Option<Capture>, r: Resource)
    requires ConfigOf(kind, r).Success?
    requires ConfigOf(kind, r).value.mode == "enabled" && ConfigOf(kind, r).value.ignorePaths != []
    ensures var u := UpdateOutcome(kind, reply, calls, capture, r);
      match capture
      case None => u == NotWritten(NeverObserved)
      case Some(c) =>
        match Pinned(kind, r, c)
        case None => u == NotWritten(NotRebuilt)
        case Some(payload) =>
          var done := reply(calls, UpdateCall(payload));
          u == Sent(Event.Written(r, ConfigOf(kind, r).value, payload), r.(annotations := done.r.annotations), done.failed)
  {}

  lemma BadConfigurationWritesNothing(
      kind: Kind, reply: (seq<Call>, Call) -> Reply, calls: seq<Call>, capture: Option<Capture>, r: Resource)
    requires ConfigOf(kind, r).Failure?
    ensures UpdateOutcome(kind, reply, calls, capture, r) == NotWritten(Misconfigured(ConfigOf(kind, r).error))
  {}

  // Comparing with pinned values and writing pinned values go together for the three
  // modes the API knows, and for no other: any other mode compares as `enabled` does but
  // writes the plain spec.
  lemma CompareAndWriteAgree(mode: string, paths: seq<Path>)
    requires paths != []
    ensures (forall first :: AsksAgain(Config(mode, paths), first) ==> Substitutes(Config(mode, paths)))
      <==> mode in [ENABLED, WARN, DISABLED]
  {
    var blank := Resource(Null, Null, map[], None, None);
    var drifted := Reply(blank, true, false, false);
    assert AsksAgain(Config(mode, paths), drifted) <==> mode != WARN && mode != DISABLED;
  }
}
