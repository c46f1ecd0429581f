/**
 What the external clients of both kinds have in common: reading a unit, judging it by the
 record of what was last applied, and applying a configuration and recording it.
 */
module Clients {
  import opened Wrappers
  import opened K3s
  import opened Persist
  import Text

  datatype Condition = Unknown | Creating | Available | Deleting

  datatype Verdict = Verdict(exists_: bool, upToDate: bool)

  // Why the cluster a node names cannot be joined.
  datatype Unresolved = NoCluster | NoSecretRef | NoSecret | NoNodeToken

  datatype Error = CannotProbe | BadRecord | CannotExecute | CannotRecord | CannotJoin(why: Unresolved)

  const EXTERNAL_NAME := "crossplane.io/external-name"

  // The annotations with the external name in sync with the host.
  function Named(annotations: map<string, string>, host: string): map<string, string> {
    if Annotation(annotations, EXTERNAL_NAME) == host then annotations else annotations[EXTERNAL_NAME := host]
  }

  // ---------------------------------------------------------------- the record

  // JSON marshalling of the record, left open.
  datatype Codec<!M> = Codec(encode: M -> string, decode: string -> Option<M>)

  ghost predicate Faithful<M(!new)>(codec: Codec<M>) {
    forall m :: codec.encode(m) != "" && codec.decode(codec.encode(m)) == Some(m)
  }

  // The record. None when nothing was recorded yet, an error when it does not decode.
  function ReadRecord<M>(codec: Codec<M>, annotations: map<string, string>, key: string): Result<Option<M>, ()> {
    var raw := Annotation(annotations, key);
    if raw == "" then Success(None)
    else
      match codec.decode(raw)
      case None => Failure(())
      case Some(last) => Success(Some(last))
  }

  // ---------------------------------------------------------------- reading

  // What the host says of the unit. The version query may fail without harm.
  datatype Reading = NoAnswer | NoUnit | Found(ready: bool, version: string)

  function ReadUnit(answer: (seq<Command>, Command) -> Option<string>, log: seq<Command>, unit: string): Reading {
    match answer(log, Probe(unit))
    case None => NoAnswer
    case Some(stdout) =>
      var probe := ParseServiceProbe(stdout);
      if !probe.Exists() then NoUnit
      else
        match answer(log + [Probe(unit)], Version)
        case None => Found(probe.Ready(), "")
        case Some(version) => Found(probe.Ready(), version)
  }

  function ConditionAfter(reading: Reading, before: Condition): Condition {
    if !reading.Found? then before else if reading.ready then Available else Creating
  }

  function Judge<M(==)>(last: Result<Option<M>, ()>, wanted: M, reading: Reading): Result<Verdict, Error> {
    match reading
    case NoAnswer => Failure(CannotProbe)
    case NoUnit => Success(Verdict(false, false))
    case Found(ready, _) =>
      match last
      case Failure(_) => Failure(BadRecord)
      case Success(record) => Success(Verdict(true, ready && record == Some(wanted)))
  }

  // ---------------------------------------------------------------- applying

  // What applying a spec comes to: its result, the stored object and the in-memory
  // annotations. A failed command records nothing.
  datatype Applied<S> = Applied(result: Result<(), Error>, o: Stored<S>, annotations: map<string, string>)

  function AppliedBy<S>(
      answered: bool, o: Stored<S>, key: string, value: string, annotations: map<string, string>,
      attempts: seq<Attempt<S>>): Applied<S>
  {
    var run := Run(o, key, value, attempts);
    if !answered then Applied(Failure(CannotExecute), o, annotations)
    else if !run.ok then Applied(Failure(CannotRecord), run.o, annotations)
    else Applied(Success(()), run.o, annotations[key := value])
  }

  // ---------------------------------------------------------------- what these give

  lemma NamedIsHost(annotations: map<string, string>, host: string, key: string)
    ensures Annotation(Named(annotations, host), "crossplane.io/external-name") == host
    ensures key != "crossplane.io/external-name" ==>
      Annotation(Named(annotations, host), key) == Annotation(annotations, key)
    ensures Annotation(annotations, "crossplane.io/external-name") == host ==> Named(annotations, host) == annotations
  {}

  // No record is not an error, a text that does not decode is.
  lemma RecordReads<M>(codec: Codec<M>, annotations: map<string, string>, key: string)
    ensures ReadRecord(codec, annotations, key) == Success(None) <==> key !in annotations || annotations[key] == ""
    ensures ReadRecord(codec, annotations, key) == Failure(()) <==>
      key in annotations && annotations[key] != "" && codec.decode(annotations[key]) == None
    ensures forall m :: ReadRecord(codec, annotations, key) == Success(Some(m)) <==>
      key in annotations && annotations[key] != "" && codec.decode(annotations[key]) == Some(m)
  {}

  // A host answers the probe with the two states systemd reports, or not at all.
  predicate Answers(
      answer: (seq<Command>, Command) -> Option<string>, log: seq<Command>, unit: string,
      load: string, active: string, trailing: string)
  {
    && load != "" && Token(load) && Token(active) && Text.Blank(trailing)
    && answer(log, Probe(unit)) == Some(load + "\n" + active + trailing)
  }

  // What the host says is what is read: there is no unit exactly if systemd has not found
  // it, and an existing one is ready exactly if it is active.
  lemma ReadingOfHost(
      answer: (seq<Command>, Command) -> Option<string>, log: seq<Command>, unit: string,
      load: string, active: string, trailing: string)
    requires Answers(answer, log, unit, load, active, trailing)
    ensures ReadUnit(answer, log, unit) ==
      if load == "not-found" then NoUnit
      else Found(active == "active", match answer(log + [Probe(unit)], Version) case None => "" case Some(v) => v)
  {
    ProbeVerdict(load, active, trailing);
  }

  // The verdict on such a host: an absent unit is reported absent whatever was recorded, an
  // existing one is up to date exactly if it is active and the record is what is wanted, and
  // a record that does not decode is an error.
  lemma VerdictOfHost<M>(
      answer: (seq<Command>, Command) -> Option<string>, log: seq<Command>, unit: string,
      load: string, active: string, trailing: string, last: Result<Option<M>, ()>, wanted: M)
    requires Answers(answer, log, unit, load, active, trailing)
    ensures Judge(last, wanted, ReadUnit(answer, log, unit)) ==
      if load == "not-found" then Success(Verdict(false, false))
      else if last.Failure? then Failure(BadRecord)
      else Success(Verdict(true, active == "active" && last.value == Some(wanted)))
  {
    ReadingOfHost(answer, log, unit, load, active, trailing);
  }

  lemma ConditionOfHost(
      answer: (seq<Command>, Command) -> Option<string>, log: seq<Command>, unit: string,
      load: string, active: string, trailing: string, before: Condition)
    requires Answers(answer, log, unit, load, active, trailing)
    ensures ConditionAfter(ReadUnit(answer, log, unit), before) ==
      if load == "not-found" then before else if active == "active" then Available else Creating
  {
    ReadingOfHost(answer, log, unit, load, active, trailing);
  }

  // A host that does not answer the probe is an error, and the condition stays.
  lemma SilentHost<M>(
      answer: (seq<Command>, Command) -> Option<string>, log: seq<Command>, unit: string,
      last: Result<Option<M>, ()>, wanted: M, before: Condition)
    requires answer(log, Probe(unit)) == None
    ensures Judge(last, wanted, ReadUnit(answer, log, unit)) == Failure(CannotProbe)
    ensures ConditionAfter(ReadUnit(answer, log, unit), before) == before
  {}

  // Applying succeeds exactly if the command is answered and the record gets stored; only
  // then does the in-memory object show it. An unanswered command writes nothing.
  lemma ApplySucceedsExactly<S>(
      answered: bool, o: Stored<S>, key: string, value: string, annotations: map<string, string>,
      attempts: seq<Attempt<S>>)
    ensures var done := AppliedBy(answered, o, key, value, annotations, attempts);
      && (done.result.Success? <==> answered && exists i :: SucceedsFirst(o, key, value, attempts, i))
      && (!answered ==> done.result == Failure(CannotExecute) && done.o == o)
      && (answered && done.result.Failure? ==> done.result == Failure(CannotRecord))
      && done.annotations == if done.result.Success? then annotations[key := value] else annotations
  {
    SuccessIsExact(o, key, value, attempts);
  }
}
