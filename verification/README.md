# Verification of provider-k3s

provider-k3s installs and reconfigures k3s on remote machines from Kubernetes resources. This project is a
Dafny model of its three hardest parts, with proofs of what they promise. `dafny verify dfyconfig.toml` checks
all of it.

**Drift ownership.** A k3s host cannot be asked for its configuration, so the provider keeps an annotation of
what it last sent and treats that as observed. Every write sends the whole configuration again. A field the user
hands over to somebody else is therefore substituted from the last observation, both before comparing and before
sending, by a decorator around the client of each kind.

- `PathSyntax`, `Eligibility` and `FieldPath` hold the pieces: which paths are accepted, and what substituting
  observed values into a spec comes to.
- `DriftDetection` is the decorator as a class with its per-reconcile capture, around a client that may answer
  anything.
- `K3s`, `Ssh`, `Persist`, `Clients`, `ClusterController` and `NodeController` are the wrapped clients: the probe,
  the commands, the annotation written under optimistic concurrency, and how a node finds its cluster.
- `Ownership` is the protocol as a step relation over stored object, record, host and reconcile phase, in which
  spec edits, host changes, outside configuration and failures interleave with the controller in any way. Its
  results are about whole runs: carry-forward, convergence, exactly when record and host agree, no create loop.
- `Composition` shows that an observation and an update of the decorator over such a client are the protocol's, that
  both kinds are such clients, and that one Create or Update of either, with its retried annotation write, is the
  protocol's command and recording steps.

The environment the runs assume is the one the code states (`internal/driftdetection/driftdetection.go:79-107`):
a reconcile starts from the stored object, connects, observes, then creates a missing resource or updates one
that is not up to date, and disconnects. Only this controller writes the record.

**Reference resolution.** `MergePatch` computes and applies JSON merge patches (RFC 7386) over recursive objects;
`RefResolver` is the resolver that sends them to a server whose copy may have moved on.

**Release tools.** `Packages` and `BaseLayer` are the tool that gives all platform packages one base layer and
changes nothing else. `VersionBlocks` holds the two line machines that read the served versions of a CRD file and
cut versions out of it.

`Text` holds the standard library's string operations, `Json` decoded JSON values, `Wrappers` options and results.

## Where the code does not do what its comments say

Each of these is proved, with the exact condition under which the promise holds.

- The package comment of the decorator gives `forProvider.k3sVersion` as its example of an ignored field and says
  that an ignored field compares equal by construction
  (`internal/driftdetection/driftdetection.go:31-33`, `:46-51`). The observed version is the line the binary
  prints, the spec holds the bare version, so the field neither compares equal nor is carried
  (`Ownership.FastPathNeedsTheMirror`, `Ownership.VersionIsNotCarried`).
- A mode that is none of the three known ones is compared as `enabled` but written without substitution
  (`internal/driftdetection/driftdetection.go:514-515` against `:568`; `DriftDetection.CompareAndWriteAgree`). Only
  validation of the resource (`apis/common/driftdetection/driftdetection_types.go:25`) keeps such a mode out.
- Command and record are two steps. If the second fails and the spec is set back, record and spec agree while the
  host runs something else (`Ownership.AgreementNeedsTheRecord`). Later verdicts are right exactly if the host runs
  what was last sent or, between commands, what is recorded (`Ownership.AgreementIsExact`). A failed command, a lost
  recording or outside configuration does no harm exactly under a condition that can be checked when it happens
  (`Ownership.StepIsHarmlessExactly`), and the next command that runs repairs any of them
  (`Ownership.CommandRestores`).
- The eligibility check walks Go types depth first. It is sound exactly where the fields it finds are, as far as
  values can tell, the ones encoding/json lets dominate (`Eligibility.WalkIsSoundExactly`); that it looks at direct
  fields first is right (`Eligibility.DirectFieldDominates`).
- A join is meant never to carry an empty token (`internal/controller/cluster/node/node.go:401-403`). The guard is
  on a failed resolution only; a spec without a cluster passes it, and only admission keeps such a spec from being
  written (`NodeController.TokenNeedsCluster`).
- The package tool compares base layers by their uncompressed content. A package that agrees in content under
  another compression is skipped and keeps its own layer digest (`BaseLayer.EveryPackageConverges`, with an example
  in `BaseLayer.RecompressedLayerIsSkipped`).
- A merge patch cannot write a null, so the round trip holds exactly when none has to be written
  (`MergePatch.RoundTrip`); a quoted text counted once is unique exactly if none overlaps it by a quote
  (`Packages.QuotedIsUnique`); trimming a probe reply moves its second line up when the first is empty
  (`K3s.ProbeReplyParses`); cutting versions out of a file and reading it agree exactly when the names of an item
  go or stay together (`VersionBlocks.CuttingAgreesWithReading`).

Zero values deserve a note. The observation omits them, so a recorded `""` or `false` is unobserved and the spec
stands for it (`internal/driftdetection/driftdetection.go:402-405`). `Ownership` works on projections without zero
values for that reason.


## Model

| member | source | states |
|---|---|---|
| `Ownership.CarryForward` | internal/driftdetection/driftdetection.go:563-596 | Any run without a Create, with spec edits, host changes, outside writers to the host and failed calls interleaved in any way: whatever non-zero value the record holds under an ignored mirrored field stays in the record and is in every command sent. |
| `Ownership.StepCarries` | internal/driftdetection/driftdetection.go:563-596 | One step of any kind that sends no Create keeps the non-zero recorded values of the ignored fields, in the record and in what it sends. |
| `Ownership.PayloadKeeps` | internal/driftdetection/driftdetection.go:571-590 | The configuration an Update sends holds the recorded value at every ignored name the record has. |
| `Ownership.Converges` | internal/controller/cluster/cluster/cluster.go:373-386 | From any idle state, no record included, with the spec unchanged and no Create: every command sends one and the same configuration; the record is written at most once and, after one successful recording, is that configuration; a verdict is up to date exactly when its last read finds the unit existing and ready and the record already holds that configuration; from then on nothing is written and readiness alone decides. |
| `Ownership.RunSettles` | internal/controller/cluster/cluster/cluster.go:373-386 | Convergence from any state in the middle of a reconcile that has not just created: one configuration is sent, it is recorded at most once, verdicts are up to date exactly when the unit is ready and it is recorded, and a settled record stays settled. |
| `Ownership.StepSettles` | internal/controller/cluster/cluster/cluster.go:373-386 | One step with the spec unchanged and no Create sends only the one configuration spec and record call for, records only that, judges by readiness and that record, and leaves a settled record alone. |
| `Ownership.PayloadSettles` | internal/driftdetection/driftdetection.go:571-590 | Substituting from the record of a substituted configuration gives that configuration again: the merge of spec and record is idempotent. |
| `Ownership.FastPathIsExact` | internal/driftdetection/driftdetection.go:514-551 | With the host unchanged between the reads, asking again only on drift concludes exactly: ready, a record is there, it equals the spec off the ignored fields, and on an ignored field it is silent only if the spec is. |
| `Ownership.PinnedMatches` | internal/driftdetection/driftdetection.go:535-545 | Field by field, what it means that the record is the substituted configuration, in both directions. |
| `Ownership.FastPathNeedsTheMirror` | internal/controller/cluster/cluster/cluster.go:284-301 | The two reads conclude what the fields call for, for every resource and host, if and only if `k3sVersion` is not ignored, because its observation is the raw version line. |
| `Ownership.VersionIsNotCarried` | internal/controller/cluster/cluster/cluster.go:284-301 | Recorded values are carried for every resource and observation if and only if `k3sVersion` is not ignored. |
| `Ownership.StepJudges` | internal/driftdetection/driftdetection.go:514-551 | One step: a verdict is the one its first and last read call for, and its first read found the unit. |
| `Ownership.RunJudges` | internal/driftdetection/driftdetection.go:514-551 | In every run, every verdict is the one its first and last read call for, and its first read found the unit. |
| `Ownership.RunKeepsInv` | internal/driftdetection/driftdetection.go:79-107 | In every run the reconcile under way works from the stored record, and what it captured and is about to send is what that record calls for. |
| `Ownership.StepKeepsInv` | internal/driftdetection/driftdetection.go:79-107 | Every single step keeps a reconcile's copy of the record, its capture and its payload in line with the stored record. |
| `Ownership.RecordIsBacked` | internal/controller/cluster/cluster/cluster.go:376-383 | In every run from a resource without a record, whatever fails and whoever else touches the host, the record is the compared part of a configuration whose command succeeded. |
| `Ownership.CommandIsLogged` | internal/controller/cluster/cluster/cluster.go:373-386 | In every run, a command logged as successful had at that point left the host with the configuration it sent, and one logged as failed had ended its reconcile with the record as it was. |
| `Ownership.StepKeepsBacked` | internal/controller/cluster/cluster/cluster.go:376-383 | Every single step keeps the record backed by a command that succeeded. |
| `Ownership.UpToDateMeansAgreement` | internal/controller/cluster/cluster/cluster.go:454-483 | In every run of harmless steps from agreement, an up-to-date verdict means that the unit is ready and runs the spec off the ignored fields and the carried value on them. A failed command is harmless if it leaves the host with what is recorded, outside configuration if it is what is due, a lost recording if there is no record or it already is this one; all other steps are. |
| `Ownership.StepAgrees` | internal/controller/cluster/cluster/cluster.go:454-483 | One step from agreement of record and host: its verdict, if up to date, is right, and it keeps the agreement if and only if it is harmless. |
| `Ownership.AgreementIsExact` | internal/controller/cluster/cluster/cluster.go:349-386 | In any state of the protocol: every up-to-date verdict of every run without failures from here on is right if and only if the host runs what is due, which is what was just sent, else what is recorded. |
| `Ownership.RunAgreementIsExact` | internal/controller/cluster/cluster/cluster.go:349-386 | The same condition decides at the end of every run, whatever failed in it and whoever else configured the host. |
| `Ownership.StepIsHarmlessExactly` | internal/controller/cluster/cluster/cluster.go:376-383 | After a step taken in agreement, failed commands, lost recordings and outside configuration included, later up-to-date verdicts are right if and only if the step is harmless. |
| `Ownership.CommandRestores` | internal/controller/cluster/cluster/cluster.go:373-379 | A command that runs restores the agreement, whatever state it finds. |
| `Ownership.RecordingDecides` | internal/controller/cluster/cluster/cluster.go:381-383 | Without any premise on the host: a recording that lands leaves agreement if and only if the host runs what was sent; a lost one if and only if there is no record or the host runs it. |
| `Ownership.AgreementSinceCommand` | internal/controller/cluster/cluster/cluster.go:376-383 | Whatever happened before: from the last command that ran on, as long as harmless steps follow, up-to-date verdicts are right. |
| `Ownership.CleanIsHarmless` | internal/controller/cluster/cluster/cluster.go:376-383 | Runs in which nothing fails and nobody else configures the host consist of harmless steps. |
| `Ownership.AgreementNeedsTheRecord` | internal/controller/cluster/cluster/cluster.go:376-383 | For any two configurations that differ in a compared field: command runs, its record is lost, the spec is set back, and the run ends in an up-to-date verdict on a host that runs something else. |
| `Ownership.NoCreateLoop` | internal/controller/cluster/cluster/cluster.go:306-320 | Once the unit has an artifact, as after a successful Create, and no Create is already due, no Create is sent until the artifact is gone, however the active state moves and whatever fails. |
| `Ownership.ReconcileIsExact` | internal/driftdetection/driftdetection.go:79-107 | One reconcile nobody disturbs: an absent unit is created from the spec as it is; an existing one is left alone if and only if it is up to date field by field, and is else sent the spec with the recorded values at the ignored names; what was sent is recorded. |
| `Ownership.StepDoesNotCreate` | internal/controller/cluster/cluster/cluster.go:238-246 | One step on a unit that has and keeps its artifact neither sends a Create nor makes one due. |
| `Ownership.RunTakes` | internal/driftdetection/driftdetection.go:79-107 | A run goes through the states its single steps lead to; carries the counterexample run. |
| `Composition.ObservationIsTwoReads` | internal/driftdetection/driftdetection.go:475-551 | One Observe of the decorator over a client that mirrors its record, under mode enabled and one path for each ignored name, gives the verdict of the protocol's two reads of the hosts it finds, and captures the protocol's observation. |
| `Composition.UpdateSendsPayload` | internal/driftdetection/driftdetection.go:563-596 | One Update after that capture calls the wrapped client with the protocol's payload and everything else of the caller's resource. |
| `Composition.PinnedIsPayload` | internal/driftdetection/driftdetection.go:415-439 | Pinning the captured values gives the protocol's payload, or fails exactly when that no longer decodes. |
| `Composition.SubstitutionOfNames` | internal/driftdetection/driftdetection.go:427-434 | Setting top-level paths replaces exactly these members of the spec. |
| `Composition.PayloadStaysTyped` | internal/driftdetection/driftdetection.go:415-439 | The substituted spec decodes for all specs and statuses of the kind if and only if, under every ignored name, what status may hold is something spec may hold. |
| `Composition.MirroredMemberStaysTyped` | internal/driftdetection/driftdetection.go:283-300 | That holds of a name under which the walk finds the field that is written in both, with the same type. |
| `Composition.ReportedNames` | internal/driftdetection/driftdetection.go:398-409 | The paths reported as observed are the ignored names the observation has. |
| `Composition.NothingConfigured` | internal/driftdetection/driftdetection.go:514-517 | No path is configured exactly when no name is ignored. |
| `Composition.SecondRead` | internal/driftdetection/driftdetection.go:535-542 | What the client answers on the substituted copy is the protocol's second comparison. |
| `Composition.HostIsWhatTheProbeSays` | internal/k3s/commands.go:235-260 | What the client parses off the probe reply is the host state the protocol speaks of. |
| `Composition.AbsentIsReported` | internal/driftdetection/driftdetection.go:484-487 | Of a unit that does not exist the decorator says so after one question and captures nothing. |
| `Composition.ClusterVerdictIsProtocols` | internal/controller/cluster/cluster/cluster.go:238-320 | For every host and record, what the Cluster client concludes from the probe reply: existence exactly as the host has it, whatever the record, and up to date exactly as the protocol compares. |
| `Composition.NodeVerdictIsProtocols` | internal/controller/cluster/node/node.go:305-390 | For every host, record and role, what the Node client concludes from the probe reply: existence exactly as the host has it, whatever the record, and up to date exactly as the protocol compares. |
| `Composition.ClusterClientFollowsProtocol` | internal/controller/cluster/cluster/cluster.go:267-320 | The verdict of the Cluster client is the protocol's comparison, and the compared part of the status it writes is the protocol's observation. |
| `Composition.StatusMembers` | internal/controller/cluster/cluster/cluster.go:276-299 | Field by field, the compared part of a status is the version line read and the recorded values, and nothing where nothing was recorded. |
| `Composition.PavedIsInjective` | internal/controller/cluster/cluster/cluster.go:474-483 | Two configurations have the same projection without zero values if and only if they are equal. |
| `Composition.NodeClientFollowsProtocol` | internal/controller/cluster/node/node.go:342-372 | The verdict of the Node client is the protocol's comparison over its four fields, and the compared part of its status is the protocol's observation. |
| `Composition.NodePavedIsInjective` | internal/controller/cluster/node/node.go:544-553 | Two Node configurations have the same projection without zero values if and only if they are equal. |
| `Composition.BothKindsAreExact` | internal/controller/cluster/cluster/cluster.go:428-446 | For both kinds the projection keeps exactly the compared fields and tells any two configurations apart. |
| `Composition.ApplyIsProtocolSteps` | internal/controller/cluster/cluster/cluster.go:349-386 | One Create or Update of either kind, with interference and failures in the retry loop: the stored object it leaves stands for the state the protocol's command and recording steps lead to, spec edits of others included, and it was written as often as these steps write it. |
| `Composition.StepsRun` | internal/controller/cluster/cluster/cluster.go:376-383 | Where the command and recording steps lead, for an answered or failed command and a kept or lost record. |
| `Composition.SameRecord` | internal/controller/cluster/cluster/cluster.go:454-464 | The record says what was applied if and only if the annotation holds its text. |
| `DriftDetection.External.Observe` | internal/driftdetection/driftdetection.go:475-552 | Result, resource, calls made of the wrapped client and capture are those of the specification `ObserveOutcome`, for a client whose replies may depend on every earlier call; a bad configuration makes no call; the invariant `Valid` is kept. |
| `DriftDetection.External.Update` | internal/driftdetection/driftdetection.go:563-596 | Result, resource and the one call made are those of `UpdateOutcome`: nothing at all without a readable configuration, a capture or a decodable copy; otherwise the payload, and of the copy only the annotations come back. |
| `DriftDetection.PlainUpdatePassesThrough` | internal/driftdetection/driftdetection.go:568-570 | Outside mode enabled, and with nothing ignored, the wrapped client is given the caller's resource, and leaves in it what it will. |
| `DriftDetection.IgnoredUpdatePins` | internal/driftdetection/driftdetection.go:572-596 | In mode enabled with ignored paths: no capture, no write; a copy that cannot be rebuilt, no write; else the pinned copy is written and of it only the annotations come back. |
| `DriftDetection.BadConfigurationWritesNothing` | internal/driftdetection/driftdetection.go:564-567 | An unreadable configuration writes nothing. |
| `DriftDetection.External.Judge` | internal/driftdetection/driftdetection.go:492-551 | From the capture on: condition, second question on a copy, verdict. |
| `DriftDetection.WarnAndDisabledNeverCorrect` | internal/driftdetection/driftdetection.go:500-511 | In modes warn and disabled an existing resource is up to date after exactly one question, whatever the wrapped client says and whatever is ignored; warn tells drift on the condition, disabled tells nothing. |
| `DriftDetection.NothingIgnoredPassesThrough` | internal/driftdetection/driftdetection.go:514-518 | In any other mode with nothing ignored the wrapped client's answer and resource pass through after one question. |
| `DriftDetection.InSyncIsNotAskedAgain` | internal/driftdetection/driftdetection.go:519-529 | With ignored paths, a resource the wrapped client finds up to date is, after one question; the condition says in sync, or names exactly the paths nothing is reported for. |
| `DriftDetection.DriftIsAskedAgain` | internal/driftdetection/driftdetection.go:531-551 | With ignored paths, on drift the client is asked exactly once more, on a copy with the captured values pinned and nothing else changed but the condition; that answer is the verdict and is told; a copy that cannot be rebuilt is an error. |
| `DriftDetection.ObservationCaptures` | internal/driftdetection/driftdetection.go:489-497 | Of an existing resource what is reported is captured for the configured paths in every mode, and only the condition is touched. |
| `DriftDetection.ObservationStops` | internal/driftdetection/driftdetection.go:476-487 | An unreadable configuration asks nothing; a first answer that fails or finds nothing is passed on after one question. |
| `DriftDetection.External.ObserveUnder` | internal/driftdetection/driftdetection.go:484-487 | A failed or negative first answer is passed on without a capture; otherwise the capture is judged. |
| `DriftDetection.External.AskAndCapture` | internal/driftdetection/driftdetection.go:484-497 | The first question, and a capture exactly if it is answered and the resource exists. |
| `DriftDetection.External.Conclude` | internal/driftdetection/driftdetection.go:485-512 | What becomes of the first answer, failed and negative ones included. |
| `DriftDetection.External.CaptureIgnored` | internal/driftdetection/driftdetection.go:489-497 | The capture replaces the previous one and holds what status reports now; on accepted paths reading it never fails. |
| `DriftDetection.External.Copy` | internal/driftdetection/driftdetection.go:535-538 | The copy carries the pinned values; the caller's object is not touched. |
| `DriftDetection.External.Write` | internal/driftdetection/driftdetection.go:590-595 | A write is made only for a payload the log justifies. |
| `DriftDetection.External.Create` | internal/driftdetection/driftdetection.go:556-558 | The resource goes through unchanged and no capture is made or used. |
| `DriftDetection.External.Disconnect` | internal/driftdetection/driftdetection.go:604-609 | The capture is dropped, and the wrapped client is disconnected. |
| `DriftDetection.External.constructor` | internal/driftdetection/driftdetection.go:458-460 | A fresh client holds no capture. |
| `DriftDetection.EveryWriteIsJustified` | internal/driftdetection/driftdetection.go:563-596 | For a client after any sequence of calls, every Update the wrapped client received is covered: if the caller's resource substitutes, an earlier Observe of the wrapped client was answered with an existing resource, no Disconnect came between, and the payload is the caller's resource with that answer's status pinned at the paths that Observe was configured for; otherwise the payload is the caller's resource. |
| `DriftDetection.WriteIsCovered` | internal/driftdetection/driftdetection.go:563-596 | The same of one write, from the log of what the decorator did and the calls it accounts for. |
| `DriftDetection.NoneMissing` | internal/driftdetection/driftdetection.go:604-609 | No Update and no Disconnect of the wrapped client goes unaccounted for. |
| `DriftDetection.EventsBelong` | internal/driftdetection/driftdetection.go:489-497 | Every capture is what the wrapped client answered at its call, and every write and drop is a call of that kind. |
| `DriftDetection.CapturedExactly` | internal/driftdetection/driftdetection.go:489-497 | A call captures if and only if it is a first question, the configuration reads and the answer is of an existing resource; what it captures is what status then reports for the configured paths. |
| `DriftDetection.InOrder` | internal/driftdetection/driftdetection.go:462-471 | Events are accounted for in the order of the calls. |
| `DriftDetection.LogGrows` | internal/driftdetection/driftdetection.go:462-471 | One more event, if justified, keeps every write of the log justified, and the last capture is the one an Update would use. |
| `DriftDetection.NoWriteAfterDisconnect` | internal/driftdetection/driftdetection.go:575-584 | After a Disconnect and before the next capture an Update with ignored paths writes nothing, whatever was called in between. |
| `DriftDetection.PayloadReads` | internal/driftdetection/driftdetection.go:415-439 | At and below a reported path the payload reads as the capture did, away from all reported paths as the caller's spec, and outside spec it is the caller's resource. |
| `DriftDetection.PayloadIgnoresStatus` | internal/driftdetection/driftdetection.go:579-590 | The payload does not depend on what status holds by the time of the write. |
| `DriftDetection.ObserveLeavesSpec` | internal/driftdetection/driftdetection.go:413-415 | Observing leaves the spec as the wrapped client's first answer left it, and as it was if the client is not asked. |
| `DriftDetection.CompareAndWriteAgree` | internal/driftdetection/driftdetection.go:514-570 | For a non-empty ignore list, comparing with pinned values implies writing pinned values if and only if the mode is one of the three known ones. |
| `DriftDetection.ReadConfig` | internal/driftdetection/driftdetection.go:204-243 | Mode and paths as specified by `ConfigOf`; the error is that of the first bad path. |
| `DriftDetection.ReadPaths` | internal/driftdetection/driftdetection.go:225-240 | The loop reads every path, or gives the error of the first bad one. |
| `DriftDetection.ReadPath` | internal/driftdetection/driftdetection.go:230-238 | One path is normalized, then checked for eligibility. |
| `DriftDetection.ConfigIsAllOrNothing` | internal/driftdetection/driftdetection.go:199-204 | A configuration is read if and only if every path of it is acceptable, and then none is left out. |
| `DriftDetection.ConfigReads` | internal/driftdetection/driftdetection.go:204-243 | The mode read is the one given, or enabled if none is; every path stands in its place, as its segments. |
| `DriftDetection.PathIsAcceptedExactly` | internal/driftdetection/driftdetection.go:230-276 | One path is accepted if and only if it normalizes, does not end in host, and names a field of both the spec and the status type. |
| `DriftDetection.FirstBadPathIsReported` | internal/driftdetection/driftdetection.go:230-238 | The error is that of the first path that is not acceptable. |
| `DriftDetection.EachIsAllOrNothing` | internal/driftdetection/driftdetection.go:225-240 | The loop succeeds if and only if every item does, and then keeps each result in order. |
| `DriftDetection.AcceptedPaths` | internal/driftdetection/driftdetection.go:245-276 | Every path of a configuration that was read is not empty, does not end in host, and names a field of both the spec and the status type. |
| `DriftDetection.Snapshot` | internal/driftdetection/driftdetection.go:387-411 | The loop gives each reported path its value and lists the others in order. |
| `DriftDetection.ObservationStep` | internal/driftdetection/driftdetection.go:398-409 | One path of it; a repeated path changes nothing but the list of unreported ones. |
| `DriftDetection.SetCaptured` | internal/driftdetection/driftdetection.go:427-431 | Whatever order the map yields the paths in, overlapping ones included, the loop gives the overlay of the captured tree on the spec, and no `SetValue` fails. |
| `DriftDetection.Apply` | internal/driftdetection/driftdetection.go:415-439 | The copy is the overlay, or an error if that no longer decodes; with nothing captured it is the resource. |
| `FieldPath.AnyOrderGivesOverlay` | internal/driftdetection/driftdetection.go:427-431 | Any order of the `SetValue` loop over reported paths, overlapping ones included, gives the same tree, the overlay. |
| `FieldPath.SetOnOverlay` | internal/driftdetection/driftdetection.go:427-431 | Writing one more observed value over an overlay is the overlay of one more path. |
| `FieldPath.OverlayCovers` | internal/driftdetection/driftdetection.go:415-417 | At and below an overlaid path the overlay reads as the observation does. |
| `FieldPath.OverlaySpares` | internal/driftdetection/driftdetection.go:415-417 | At a path unrelated to all overlaid ones the overlay reads as the spec does. |
| `FieldPath.OverlayOneMore` | internal/driftdetection/driftdetection.go:427-431 | One more path below a member changes that member only. |
| `FieldPath.OverlayIsObject` | internal/driftdetection/driftdetection.go:427-431 | Member by member, an overlay of objects is the overlay of the members. |
| `FieldPath.SetSameValue` | internal/driftdetection/driftdetection.go:427-431 | Writing a tree's own value into it changes nothing. |
| `FieldPath.GetAfterSet` | internal/driftdetection/driftdetection.go:427-431 | Reading a path that was written finds what was written. |
| `FieldPath.SetSpares` | internal/driftdetection/driftdetection.go:427-431 | Writing a path changes nothing apart from it. |
| `FieldPath.SetFailsExactly` | internal/driftdetection/driftdetection.go:427-431 | Writing a path fails if and only if something that is no object is in the way. |
| `FieldPath.GetIsLookup` | internal/driftdetection/driftdetection.go:398-409 | Reading a path finds what looking up its names one by one finds. |
| `FieldPath.NotAnObjectExactly` | internal/driftdetection/driftdetection.go:398-409 | A read fails, instead of finding nothing, if and only if a value that is neither an object nor null is in the way. |
| `Eligibility.StructFieldByJSONName` | internal/driftdetection/driftdetection.go:306-336 | The search in place, direct fields before embedded ones, finds what the recursive `StructField` defines. |
| `Eligibility.WalkType` | internal/driftdetection/driftdetection.go:285-300 | The walk through pointers resolves what `FieldType` defines. |
| `Eligibility.WalkIsCandidate` | internal/driftdetection/driftdetection.go:302-336 | The search finds a field if and only if JSON encoding may write one of that name, and then finds one of those. |
| `Eligibility.ResolvedPathIsReadable` | internal/driftdetection/driftdetection.go:278-300 | Where the fields the walk finds are, as far as values can tell, the ones encoding/json writes: on every value of the type the path finds a value of the resolved type or nothing, never something that is no object, and can be written. |
| `Eligibility.WalkIsSoundExactly` | internal/driftdetection/driftdetection.go:278-300 | The walk is sound for a path on every value of a type if and only if the fields it finds are, as far as values can tell, the ones encoding/json lets dominate. Side by side embedded structs and names at several depths are included. |
| `Eligibility.DominantStepsAreReadable` | internal/driftdetection/driftdetection.go:278-300 | It is sound where every step finds the dominant field. |
| `Eligibility.DirectFieldDominates` | internal/driftdetection/driftdetection.go:311-324 | Looking at direct fields first is right: a field named directly, once, is the one written, whatever the embedded structs hold. |
| `Eligibility.EmbeddedFieldDominates` | internal/driftdetection/driftdetection.go:325-335 | Among embedded structs the search is right about a name that only one of them has, if it is right within that one. |
| `Eligibility.DominantIsFound` | internal/driftdetection/driftdetection.go:302-336 | The search misses no field that encoding/json writes. |
| `Eligibility.ShallowestIsLeast` | internal/driftdetection/driftdetection.go:302-336 | The search by depth gives the least depth at which a name has fields, with all fields there in order, or nothing if no depth has any. |
| `Eligibility.DominantIsAlone` | internal/driftdetection/driftdetection.go:302-336 | A field is the one written under a name if and only if it is the only one of that name at some embedding depth and no lesser depth has any. |
| `Eligibility.FitsIsExact` | internal/driftdetection/driftdetection.go:245-252 | One type fits another if and only if every value of the one is a value of the other. |
| `Eligibility.CheckEligible` | internal/driftdetection/driftdetection.go:260-276 | Refuses an identity field, then a path not in the spec type, then one not in the status type. |
| `Eligibility.RefusalIsExact` | internal/driftdetection/driftdetection.go:260-276 | Nothing is refused if and only if the path does not end in host and names a field of spec and of status; each refusal is given exactly in its case, identity before missing before write-only. |
| `PathSyntax.NormalizePath` | internal/driftdetection/driftdetection.go:346-371 | Trims, decodes a pointer, then checks in the order of the code, for every string. |
| `PathSyntax.NormalizeIsExact` | internal/driftdetection/driftdetection.go:346-371 | For every string: it is accepted if and only if its dotted form, by RFC 6901 for a pointer, is below forProvider, has no empty segment and holds no bracket and no star; and which refusal is given in each other case. |
| `PathSyntax.DecodeParts` | internal/driftdetection/driftdetection.go:353-356 | The in-place loop decodes every token. |
| `PathSyntax.TwoReplacementsDecode` | internal/driftdetection/driftdetection.go:354-355 | For every string the two replacements equal the one-pass decoding of section 4 of RFC 6901. |
| `PathSyntax.UnescapeOfEscape` | internal/driftdetection/driftdetection.go:354-355 | Decoding an encoded token gives it back. |
| `PathSyntax.EscapedHasNoSlash` | internal/driftdetection/driftdetection.go:352-353 | An encoded token has no slash, so splitting finds the tokens. |
| `PathSyntax.PointerDecodes` | internal/driftdetection/driftdetection.go:351-358 | Any non-empty token list written as a pointer decodes to its dotted form. |
| `PathSyntax.PointerNormalizes` | internal/driftdetection/driftdetection.go:338-371 | A token list under forProvider, of tokens that mean the same in both spellings and do not end in a space, normalizes from its pointer to its dotted form. |
| `PathSyntax.DottedIsAccepted` | internal/driftdetection/driftdetection.go:360-370 | The dotted form of a plain token list under forProvider passes every check. |
| `PathSyntax.NormalizedIsStable` | internal/driftdetection/driftdetection.go:346-371 | On every accepted string normalizing again changes nothing. |
| `PathSyntax.PointerEndsTrimmed` | internal/driftdetection/driftdetection.go:347-358 | A decoded pointer that parses does not end in a space. |
| `PathSyntax.Segments` | internal/driftdetection/driftdetection.go:260-272 | An accepted path is forProvider and a non-empty list of non-empty segments. |
| `Persist.PersistAnnotation` | internal/controller/cluster/cluster/cluster.go:495-519 | The retry loop gives the outcome `Run` defines for any interference, failed reads, and writes whose answer is lost; it succeeds if and only if some attempt finds the value or writes undisturbed after all earlier ones lost the race; the in-memory mirror is set on success only; the loop ends. |
| `Persist.SuccessIsExact` | internal/controller/cluster/cluster/cluster.go:502-519 | The loop succeeds if and only if for some attempt all earlier ones were read, answered and lost the race, and it is read and either finds the value or writes undisturbed and is answered. |
| `Persist.SuccessLeaves` | internal/controller/cluster/cluster/cluster.go:507-517 | What that attempt leaves: the object as the others made it and no write, or the object it read with the annotation set in one write. |
| `Persist.FailureLeaves` | internal/controller/cluster/cluster/cluster.go:502-512 | What the first attempt that neither succeeds nor loses the race leaves, an unanswered write that was stored after all included. |
| `Persist.FourthAttemptSucceeds` | internal/controller/cluster/cluster/cluster.go:502-519 | After three attempts that lose the race an undisturbed fourth one still stores the value and succeeds. |
| `Persist.NoLostUpdate` | internal/controller/cluster/cluster/cluster.go:495-519 | For any interference and failure: the stored object is what the other writers alone produce, plus the annotation if it was written, which happens at most once. |
| `Persist.SuccessMeansStored` | internal/controller/cluster/cluster/cluster.go:495-519 | Success means the annotation held the value: by the loop's own write, which is then the last, or at a moment when it was read. |
| `Persist.EqualAnnotationIsNotWritten` | internal/controller/cluster/cluster/cluster.go:507-512 | An annotation that already holds the value is not written, and the loop succeeds unless the read fails. |
| `Persist.GivesUpUnderContention` | internal/controller/cluster/cluster/cluster.go:502-519 | With foreign writes in every attempt, none of them to the annotation, the bounded retry fails and has written nothing. |
| `Persist.OnlyWriterRecords` | internal/controller/cluster/cluster/cluster.go:495-519 | If nobody else writes the annotation, it ends up holding the value whenever the loop succeeds or wrote, and what it held otherwise. |
| `Persist.OnlyWriterPuts` | internal/controller/cluster/cluster/cluster.go:507-512 | If nobody else writes the annotation, a write happens only if it did not hold the value, and success without a write only if it did. |
| `Persist.Api.Update` | internal/controller/cluster/cluster/cluster.go:507-511 | A write is refused exactly when the object changed since it was read. |
| `Persist.ForeignWriteIs` | internal/controller/cluster/cluster/cluster.go:502-511 | A foreign write changes the spec or one annotation, and the version. |
| `Persist.Api.Interfere` | internal/controller/cluster/cluster/cluster.go:502-506 | Foreign writes between the read and the write apply in order. |
| `Persist.VersionsCount` | internal/controller/cluster/cluster/cluster.go:502-511 | Every foreign write moves the version, so a stale write is always noticed. |
| `Persist.AfterAllConcat` | internal/controller/cluster/cluster/cluster.go:502-511 | Applying two stretches of foreign writes is applying them one after the other. |
| `ClusterController.External.Observe` | internal/controller/cluster/cluster/cluster.go:230-329 | Commands, verdict, condition, status and external name for every answer of the host and every annotation, errors included; the spec is not changed. |
| `ClusterController.External.SyncExternalName` | internal/controller/cluster/cluster/cluster.go:231-236 | The external name follows the host and the record is unaffected. |
| `ClusterController.External.Read` | internal/controller/cluster/cluster/cluster.go:238-252 | The further queries are sent only for a unit that exists. |
| `ClusterController.External.Conclude` | internal/controller/cluster/cluster/cluster.go:258-320 | Condition, then record, then status, then verdict; a record that does not decode leaves status alone. |
| `ClusterController.StatusMirrorsSpec` | internal/controller/cluster/cluster/cluster.go:276-293 | Identity, readiness, version line and the immutable fields of status are those given and those of the spec; the other mutable fields are those of the record, zero without one. |
| `ClusterController.External.Apply` | internal/controller/cluster/cluster/cluster.go:373-386 | One command is sent, whose eight fields are those of the spec, then the mutable part is recorded; a failed command records nothing. |
| `ClusterController.CommandEchoesSpec` | internal/controller/cluster/cluster/cluster.go:395-406 | The install command of a spec is the one whose eight fields are all the spec's. |
| `ClusterController.SameCommandExactly` | internal/controller/cluster/cluster/cluster.go:388-406 | Two specs send the same install command if and only if they differ in host and port at most. |
| `ClusterController.External.Create` | internal/controller/cluster/cluster/cluster.go:349-364 | Sets the Creating condition, sends one command whose eight fields are those of the spec, then records its mutable part; a failed command records nothing; spec and status stay. |
| `ClusterController.External.Update` | internal/controller/cluster/cluster/cluster.go:373-386 | Sends one command whose eight fields are those of the spec, then records its mutable part, and leaves spec, status and condition alone. |
| `ClusterController.External.Delete` | internal/controller/cluster/cluster/cluster.go:408-417 | The server's uninstall script is run after the Deleting condition. |
| `ClusterController.AppliedIsRecorded` | internal/controller/cluster/cluster/cluster.go:349-386 | A successful Create or Update stores the mutable part of the very command it sent under the kind's own key, and nothing else of the stored object differs from what other writers left. |
| `ClusterController.AppliedIsUpToDate` | internal/controller/cluster/cluster/cluster.go:474-483 | After a successful Create or Update the next observation of the stored object is up to date if and only if the unit is ready and the mutable spec is still the one applied. |
| `Clients.VerdictOfHost` | internal/controller/cluster/cluster/cluster.go:238-320 | For a host that answers the probe: an absent unit is reported absent whatever was recorded; an existing one is up to date if and only if it is active and the record is what is wanted; a record that does not decode is an error. |
| `Clients.ReadingOfHost` | internal/controller/cluster/cluster/cluster.go:238-248 | There is no unit if and only if systemd has not found it, an existing one is ready if and only if it is active, and the version is asked of an existing one only. |
| `Clients.ConditionOfHost` | internal/controller/cluster/cluster/cluster.go:260-264 | The condition is Available for an active unit, Creating for an existing one that is not, and stays for an absent one. |
| `Clients.SilentHost` | internal/controller/cluster/cluster/cluster.go:238-241 | A host that does not answer the probe is an error, and the condition stays. |
| `Clients.RecordReads` | internal/controller/cluster/cluster/cluster.go:454-464 | A missing or empty annotation is no record, one that does not decode is an error, and any other is the record it decodes to. |
| `Clients.NamedIsHost` | internal/controller/cluster/cluster/cluster.go:231-236 | The external name is the host afterwards, no other annotation changes, and none at all if it was the host already. |
| `Clients.ApplySucceedsExactly` | internal/controller/cluster/cluster/cluster.go:349-386 | Applying succeeds if and only if the command is answered and the record gets stored, and only then the in-memory object shows it; an unanswered command writes nothing. |
| `NodeController.External.constructor` | internal/controller/cluster/node/node.go:238-251 | Connecting stores the resolved identity or the error, and never fails on a failed resolution. |
| `NodeController.External.Observe` | internal/controller/cluster/node/node.go:297-393 | Commands, verdict, condition, status and external name for every answer of the host and every annotation, errors included; the cluster is not looked at. |
| `NodeController.External.SyncExternalName` | internal/controller/cluster/node/node.go:298-303 | The external name follows the host and the record is unaffected. |
| `NodeController.External.Read` | internal/controller/cluster/node/node.go:305-317 | The probe is of the unit of the role, and the version is asked only of a unit that exists. |
| `NodeController.External.Conclude` | internal/controller/cluster/node/node.go:325-372 | Condition, then record, then status, then verdict; a record that does not decode leaves status alone. |
| `NodeController.StatusMirrorsSpec` | internal/controller/cluster/node/node.go:342-360 | Identity, readiness, role, version line and the immutable fields of status are those given and those of the spec; the other mutable fields are those of the record, zero without one. |
| `NodeController.External.Create` | internal/controller/cluster/node/node.go:400-422 | A failed resolution is reported and nothing else happens; otherwise Creating is set, the join is sent and its mutable part recorded. |
| `NodeController.External.Update` | internal/controller/cluster/node/node.go:433-453 | A failed resolution is reported and nothing else happens; otherwise the join is sent and its mutable part recorded, the condition left alone. |
| `NodeController.External.Delete` | internal/controller/cluster/node/node.go:475-491 | The uninstall script of the role is run after the Deleting condition, whatever the resolution gave. |
| `NodeController.External.Apply` | internal/controller/cluster/node/node.go:445-452 | The join with the whole spec is sent, then its mutable part recorded; a failed command records nothing. |
| `NodeController.CommandEchoesSpec` | internal/controller/cluster/node/node.go:455-473 | The join command of a spec is the one that carries the resolved host and token and the spec's role, version, channel, arguments and names; with an unresolved cluster there is none. |
| `NodeController.ProbeAndUninstall` | internal/controller/cluster/node/node.go:475-491 | Whether or not resolution failed, Observe probes the unit of the role at Connect and Delete runs the script of the role in the spec. |
| `NodeController.SameCommandExactly` | internal/controller/cluster/node/node.go:463-473 | Two specs send the same join command if and only if they agree in role and in what is recorded. |
| `NodeController.AppliedIsRecorded` | internal/controller/cluster/node/node.go:400-453 | A successful Create or Update stores the mutable part of the very join it sent under the kind's own key, and nothing else of the stored object differs from what other writers left. |
| `NodeController.AppliedIsUpToDate` | internal/controller/cluster/node/node.go:544-553 | After a successful Create or Update the next observation of the stored object is up to date if and only if the unit is ready and the mutable spec is still the one applied. |
| `NodeController.EveryJoinIsResolved` | internal/controller/cluster/node/node.go:225-276 | In every run, a join sent by a reconcile that connected with a non-empty `cluster` carries the host of the cluster that this reconcile's spec names and the non-empty token entry of the secret it points to. |
| `NodeController.ClientJoins` | internal/controller/cluster/node/node.go:400-453 | Within one reconcile whose spec names a cluster, every join carries that cluster's host and the non-empty token entry of the secret it points to. |
| `NodeController.ResolutionIsExact` | internal/controller/cluster/node/node.go:254-276 | Resolution gives a host and token if and only if they are the cluster's and the non-empty token entry of the secret it points to; and which error is given for a missing cluster, reference or secret. |
| `NodeController.ConnectIsExact` | internal/controller/cluster/node/node.go:240-251 | A client holds host and token if and only if they are what the named cluster resolves to, the error if resolution fails, and neither if the spec names no cluster. |
| `NodeController.TokenNeedsCluster` | internal/controller/cluster/node/node.go:240-243 | A join that is sent carries a token if and only if the spec named a cluster at Connect. |
| `NodeController.CommandsConcat` | internal/controller/cluster/node/node.go:240-252 | The commands of a run are those of its reconciles, one after the other, with none added or lost. |
| `NodeController.FailedResolutionOnlyStopsJoins` | internal/controller/cluster/node/node.go:230-239 | After a failed resolution no join is sent, and every Observe and Delete sends its command. |
| `NodeController.OneUnitPerRole` | internal/controller/cluster/node/node.go:475-483 | With a fixed role all reconciles probe, restart and remove one unit: k3s for a server, k3s-agent for anything else. |
| `NodeController.ClientKeepsUnit` | internal/controller/cluster/node/node.go:297-305 | Within one reconcile of a fixed role all commands are about k3s for a server, k3s-agent for anything else. |
| `K3s.ProbeReplyParses` | internal/k3s/commands.go:235-242 | For all token states and trailing blanks, parsing the printed reply gives both states back if and only if the first is not empty or the second is. |
| `K3s.ReplyTrims` | internal/k3s/commands.go:236-236 | What trimming leaves of a reply: the second line alone if the first is empty, the first alone if the second is, else both. |
| `K3s.ProbeVerdict` | internal/k3s/commands.go:252-260 | With a load state reported, the unit exists exactly when that is not `not-found`, and is ready exactly when its active state is `active`. |
| `K3s.UnitsAndScripts` | internal/k3s/commands.go:168-173 | Install, join, probe and the two uninstall scripts agree on one unit per role: k3s for a server, k3s-agent for anything else. |
| `K3s.BlankReplyIsAbsent` | internal/k3s/commands.go:230-234 | A blank reply, as of a probe that did not run, is of no unit and not ready. |
| `K3s.TwoLinesSplit` | internal/k3s/commands.go:236-240 | A trimmed two-line reply splits into its two states. |
| `MergePatch.ApplyMergePatch` | internal/controller/refresolver/mergepatch_test.go:133-149 | For every order in which the map yields its members, the recursive in-place loop gives `Merge`. |
| `MergePatch.RoundTrip` | internal/controller/refresolver/refresolver.go:121-132 | Applying the difference of two objects to the first gives the second if and only if every null the second holds, at any depth, is one the first held too. |
| `MergePatch.RoundTripMember` | internal/controller/refresolver/refresolver.go:121-132 | A member comes back from the round trip if and only if it holds no null, at any depth, that was not there before. |
| `MergePatch.FreshObject` | internal/controller/refresolver/mergepatch_test.go:139-144 | An object written where there was none comes back if and only if nothing in it is null. |
| `MergePatch.DiffEmptyIffEqual` | internal/controller/refresolver/refresolver.go:126-128 | The difference is empty if and only if the objects are equal. |
| `MergePatch.DiffMembers` | internal/controller/refresolver/refresolver.go:121-125 | The difference mentions exactly the members that changed. |
| `MergePatch.Idempotent` | internal/controller/refresolver/mergepatch_test.go:133-149 | Applying any patch twice is applying it once. |
| `MergePatch.PatchIsLocal` | internal/controller/refresolver/refresolver.go:29-32 | Applied to any server object, a difference leaves every path alone at which the two objects agree. |
| `MergePatch.NestedPatch` | internal/controller/refresolver/mergepatch_test.go:139-144 | A changed nested object reaches the server as a patch of its own. |
| `MergePatch.PatchWrites` | internal/controller/refresolver/refresolver.go:29-32 | Where the change wrote a plain value or removed one, the server ends with what the change says. |
| `MergePatch.MergeWrites` | internal/controller/refresolver/mergepatch_test.go:145-146 | A plain value anywhere in a patch is what the result holds there. |
| `RefResolver.Resolver.ResolveReferences` | internal/controller/refresolver/refresolver.go:99-135 | Object, result, patches sent and stored object for every resolution and server, with no patch for an unchanged object and none after a failed resolution. |
| `RefResolver.Resolver.EmptySlots` | internal/controller/refresolver/refresolver.go:138-149 | Exactly the slots that hold the empty string, at any depth, in order. |
| `RefResolver.Resolver.RestoreEmpty` | internal/controller/refresolver/refresolver.go:114-119 | Kept slots that became nil are set back one after the other, as `Restored` specifies. |
| `RefResolver.Resolver.Send` | internal/controller/refresolver/refresolver.go:121-134 | An empty difference is not sent. |
| `RefResolver.Server.Patch` | internal/controller/refresolver/mergepatch_test.go:110-130 | A refused patch leaves no trace; an accepted one is merged and recorded. |
| `RefResolver.KeptSlotIsNotRemoved` | internal/controller/refresolver/refresolver.go:79-84 | A kept slot, at any depth, is never sent as a removal: it is left out, or sent with the value its reference gives. |
| `RefResolver.RestoredReads` | internal/controller/refresolver/refresolver.go:114-119 | Slot by slot: a kept slot that became nil, and whose object is still there, holds the empty string again; whatever lies apart from the slots is unchanged. |
| `RefResolver.SentAt` | internal/controller/refresolver/refresolver.go:121-132 | What the patch says of a plain field at any depth: nothing if it did not change, a removal exactly if it is gone, else its new value. |
| `RefResolver.UnkeptSlotIsRemoved` | internal/controller/refresolver/refresolver.go:77-79 | Without the option a slot that resolution empties is sent as a removal, at any depth. |
| `RefResolver.PassPersistsResolution` | internal/controller/refresolver/refresolver.go:99-132 | A server that still holds what the pass read ends with the resolved object, and the next pass over that sends no patch if it resolves to itself, where the generated code may turn any kept slot into nil again. |
| `RefResolver.SecondPassChangesNothing` | internal/controller/refresolver/refresolver.go:76-84 | Slots kept empty cause no endless patching: a pass over content that resolves to itself, up to kept slots turned into nil again, changes nothing. |
| `RefResolver.UnchangedFieldsSurvive` | internal/controller/refresolver/refresolver.go:21-32 | Over any sequence of passes, however old the object each of them read, interleaved with other writers: a path none of them changes keeps its stored value. |
| `RefResolver.FilledFieldSurvives` | internal/controller/refresolver/refresolver.go:21-32 | A field one pass filled is still filled after any later passes that resolve others. |
| `Packages.LoadPlatform` | hack/normalize-xpkg-base-layer.go:189-265 | For every archive, repeated names included, the loops give `Load`, errors in the order of the code. |
| `Packages.LoadIsExact` | hack/normalize-xpkg-base-layer.go:207-264 | A package loads, with exactly these parts, if and only if it has one manifest, the config and all layers of it, all layers read, and the base layer has a name. |
| `Packages.FirstBadLayerIsReported` | hack/normalize-xpkg-base-layer.go:234-247 | The search for the base layer fails with an error if and only if it is that of the first layer that cannot be read. |
| `Packages.LoadReportsBadLayer` | hack/normalize-xpkg-base-layer.go:234-247 | With a readable manifest and a config, the error of the first layer that is missing or does not read is the error of loading. |
| `Packages.LayerReads` | hack/normalize-xpkg-base-layer.go:236-258 | A layer reads unless it does not unpack or its package.yaml does not decode; it is a base layer if and only if that is its one file; its diffID is the hash of the unpacked stream and its digest that of the blob. |
| `Packages.LastBaseIsTaken` | hack/normalize-xpkg-base-layer.go:231-260 | All layers have to read, and of several base layers the last one is taken. |
| `Packages.BodyIsLast` | hack/normalize-xpkg-base-layer.go:198-211 | A name stands for the last entry that has it. |
| `Packages.VerifySemanticEquivalence` | hack/normalize-xpkg-base-layer.go:333-345 | Passes exactly for equal document lists. |
| `Packages.RewriteWithDonorBase` | hack/normalize-xpkg-base-layer.go:354-441 | The two replacements and the loops over layers and entries give `Rewrite`, or its error. |
| `Packages.RewriteIsExact` | hack/normalize-xpkg-base-layer.go:333-376 | A package is rewritten if and only if its documents are the donor's and each of the two quoted strings is counted once. |
| `Packages.NewManifestKeepsRest` | hack/normalize-xpkg-base-layer.go:382-396 | The new manifest names the new config and, wherever the base layer stood, the donor's; tags and all other layers stay. |
| `Packages.RewriteEntries` | hack/normalize-xpkg-base-layer.go:408-431 | The loop over entries, branch by branch, gives every entry what `NewEntry` says. |
| `Packages.RenameLayer` | hack/normalize-xpkg-base-layer.go:389-395 | The in-place loop renames every occurrence of the base layer. |
| `Packages.PatchChangesTwoStrings` | hack/normalize-xpkg-base-layer.go:355-380 | A patched config differs from the original in two strings only; any other occurrence of either overlaps the one replaced. |
| `Packages.ReplaceIsOneChange` | hack/normalize-xpkg-base-layer.go:357-361 | Replacing the first occurrence of a string counted once changes that one place, and any other occurrence overlaps it. |
| `Packages.QuotedIsUnique` | hack/normalize-xpkg-base-layer.go:357-360 | A quoted text counted once occurs once if and only if no other occurrence begins with its closing quote. |
| `Packages.CountedOnce` | hack/normalize-xpkg-base-layer.go:357-360 | A string counted once occurs nowhere before its first occurrence and nowhere past its end. |
| `Packages.CountIsExact` | hack/normalize-xpkg-base-layer.go:357-360 | A string is counted not at all if and only if it does not occur, and once if and only if it occurs and every other occurrence overlaps the first. |
| `Packages.IndexFrom` | hack/normalize-xpkg-base-layer.go:361-361 | The search finds an occurrence before which there is none, or nothing if there is none at all. |
| `Packages.RewrittenLoads` | hack/normalize-xpkg-base-layer.go:347-441 | A rewritten well-formed package loads: same path, patched config, manifest with the new names, the donor's base layer with its diffID and digest. |
| `Packages.RewrittenResolves` | hack/normalize-xpkg-base-layer.go:382-396 | In a rewritten package the manifest and the config resolve to what was written for them. |
| `Packages.RewrittenManifest` | hack/normalize-xpkg-base-layer.go:411-414 | A rewritten package holds the new manifest, whichever of repeated entries counts. |
| `Packages.RewrittenBlob` | hack/normalize-xpkg-base-layer.go:410-427 | Every other name in a rewritten package stands for the content it is the hash of, repeated names included. |
| `Packages.RewrittenLayer` | hack/normalize-xpkg-base-layer.go:389-395 | Every layer of a rewritten package reads as before, except that the base layer is the donor's. |
| `Packages.BaseMoves` | hack/normalize-xpkg-base-layer.go:231-260 | If layer by layer one base layer moved, searching the renamed layers finds the new one where the old one was found. |
| `Packages.RewrittenBase` | hack/normalize-xpkg-base-layer.go:231-260 | Searching the layers of a rewritten package finds the donor's base layer. |
| `Packages.LoadedBlobs` | hack/normalize-xpkg-base-layer.go:207-262 | In a well-formed package that loaded, manifest, config and base layer are entries of their own, and the base layer is one of the layers. |
| `Packages.OtherEntriesSurvive` | hack/normalize-xpkg-base-layer.go:352-353 | Entries stay in number, order and header; only the manifest, the config and the base layer may change. |
| `BaseLayer.NormalizeAll` | hack/normalize-xpkg-base-layer.go:135-180 | The whole tool on a disk of packages gives `Normalize`: files left behind and success, for every argument list. |
| `BaseLayer.NormalizeSucceedsExactly` | hack/normalize-xpkg-base-layer.go:141-179 | A run of two or more succeeds if and only if every package loads and every one whose base layer content is not the donor's can be rewritten. |
| `BaseLayer.FewPackagesAreLeftAlone` | hack/normalize-xpkg-base-layer.go:136-140 | Fewer than two packages are not looked at. |
| `BaseLayer.LessIsLexicographic` | hack/normalize-xpkg-base-layer.go:151-153 | Paths are ordered as Go strings are: by the first character that differs, or by which one ends first. |
| `BaseLayer.LoadEach` | hack/normalize-xpkg-base-layer.go:142-149 | All packages are loaded, or the first failure ends the run. |
| `BaseLayer.HasDiverged` | hack/normalize-xpkg-base-layer.go:156-162 | The loop finds a platform that differs from the donor if and only if there is one. |
| `BaseLayer.ConvergeOnFirst` | hack/normalize-xpkg-base-layer.go:154-179 | From the sorted platforms on, including what a failure half-way leaves behind. |
| `BaseLayer.EveryPackageConverges` | hack/normalize-xpkg-base-layer.go:168-179 | After a successful run on well-formed packages every package loads with the donor's diffID; with the donor's digest if and only if it did not already agree on the diffID under another digest; its other entries are verbatim and in order; its config is the old one or differs at the two uniquely occurring strings only. |
| `BaseLayer.RecompressedLayerIsSkipped` | hack/normalize-xpkg-base-layer.go:159-166 | For any two different base layer blobs with the same diffID there are two packages that pass as consistent and keep different layer digests. |
| `BaseLayer.PackLoads` | hack/normalize-xpkg-base-layer.go:189-265 | A package of a manifest, a config and one base layer loads, with exactly these. |
| `BaseLayer.LoadsConverged` | hack/normalize-xpkg-base-layer.go:168-179 | One package that was left alone or rewritten as the run calls for keeps its other entries and loads with the donor's base layer content. |
| `BaseLayer.PackageAfter` | hack/normalize-xpkg-base-layer.go:168-179 | A successful run leaves each listed package alone if it agreed and rewritten if it did not. |
| `BaseLayer.ConvergedAt` | hack/normalize-xpkg-base-layer.go:168-179 | A run of the loop that ends well leaves the donor alone and every other platform as it was or rewritten, as its diffID calls for. |
| `BaseLayer.RewriteAllConverges` | hack/normalize-xpkg-base-layer.go:168-179 | The loop rewrites every platform it does not skip. |
| `BaseLayer.RewriteAllLeaves` | hack/normalize-xpkg-base-layer.go:168-179 | However the loop ends, a file is as it was or is a completed rewrite of a platform at that path. |
| `BaseLayer.SecondRunWritesNothing` | hack/normalize-xpkg-base-layer.go:30-32 | A second run succeeds and leaves every file as it is. |
| `BaseLayer.ConsistentIsLeftAlone` | hack/normalize-xpkg-base-layer.go:30-32 | Packages that agree are not touched. |
| `BaseLayer.ArgumentOrderDoesNotMatter` | hack/normalize-xpkg-base-layer.go:151-154 | For distinct paths the outcome, failure included, does not depend on the order of the arguments. |
| `BaseLayer.OthersAreNeverAltered` | hack/normalize-xpkg-base-layer.go:328-332 | However a run ends, it alters no file that is not listed, not the donor's, and none whose documents differ from the donor's. |
| `BaseLayer.PlatformsAre` | hack/normalize-xpkg-base-layer.go:141-154 | The sorted platforms are the loaded arguments, each once. |
| `BaseLayer.SortSorts` | hack/normalize-xpkg-base-layer.go:151-153 | Sorting distinct paths gives a strictly increasing list. |
| `BaseLayer.SortKeepsAll` | hack/normalize-xpkg-base-layer.go:151-153 | Sorting keeps every platform and adds none. |
| `BaseLayer.SortedIsUnique` | hack/normalize-xpkg-base-layer.go:151-153 | There is one sorted list for a set of platforms, so the donor is determined. |
| `VersionBlocks.ReadServed` | hack/check-breaking-changes.sh:113-132 | The line loop reads what `Served` defines. |
| `VersionBlocks.StripVersions` | hack/check-breaking-changes.sh:138-169 | The line loop with its pending item writes what `Strip` defines. |
| `VersionBlocks.ReadsWhatIsWritten` | hack/check-breaking-changes.sh:106-132 | Of every file written as a head, the header, versions of any number of lines and a tail, reading gives the names of the versions, in order, and no name nested deeper. |
| `VersionBlocks.NameInIsExact` | hack/check-breaking-changes.sh:124-130 | A line gives a name if and only if it is the four-space name key followed by exactly that name, not empty and without blanks. |
| `VersionBlocks.CutsWhatIsWritten` | hack/check-breaking-changes.sh:134-169 | Cutting versions out of such a file gives such a file, with the same head and tail, of the other versions. |
| `VersionBlocks.CuttingAgreesWithReading` | hack/check-breaking-changes.sh:113-169 | For every file with one versions header: reading the cut file gives the versions without the dropped ones, in order, if and only if the names of each item go or stay together and no dropped name stands in the block outside an item. |
| `VersionBlocks.GeneratedFilesAgree` | hack/check-breaking-changes.sh:106-138 | For files whose items each hold one name both tools agree whatever is dropped, and every line outside a dropped item is kept in order. |
| `VersionBlocks.PiecesMakeFile` | hack/check-breaking-changes.sh:134-138 | The lines and items the cutter sees make up the file, in order. |
| `VersionBlocks.StripKeepsRemaining` | hack/check-breaking-changes.sh:138-169 | What the cutter writes is the file without the items that go, line by line and in order. |
| `VersionBlocks.ServedOfRemaining` | hack/check-breaking-changes.sh:113-169 | Reading what the cutter wrote gives the names of the pieces left. |
| `VersionBlocks.ServedIsNames` | hack/check-breaking-changes.sh:113-132 | Reading a file gives the names of its pieces. |
| `VersionBlocks.PiecesAgreeIffUniform` | hack/check-breaking-changes.sh:145-150 | Dropping pieces and dropping names agree if and only if no piece mixes dropped and kept names. |


## Left out

- SSH sessions, contexts, timeouts and the redaction of output: a command is answered or fails, and the host may
  have changed either way.
- The shell text of commands and its quoting: a command is a function of its parameters.
- JSON and YAML documents, gzip, tar and SHA-256: parameters. The record's encoding is assumed to decode to what was
  encoded, hashes not to collide, and the manifest written to be the manifest read.
- Setup of controllers, credentials, ProviderConfig lookup and usage tracking, the RBAC check: no property of their
  own, over libraries that are not part of this model.
- Connection details, the kubeconfig rewrite and the token a Cluster publishes: the two commands that read them are
  in the log, their answers are not used.
- The namespaced controllers (`internal/controller/namespaced/cluster/cluster.go`,
  `internal/controller/namespaced/node/node.go`): second instances of the same protocol.
- The verdict loop of `hack/check-breaking-changes.sh` and the tool it calls, and how Python reads a file into lines.
- Reading a file as an archive and replacing it by rename: a package is read and written as a whole or not at all.
- The mutex of the decorator and its use by two reconciles at once: a client serves one reconcile at a time.
- `Delete` of the decorator: it only passes through.
- Reads of a stale cache: a reconcile starts from the stored object. A list of passes with stale reads is covered for
  the reference resolver.
- Field paths with brackets: normalization rejects them, so a path parses exactly when no segment is empty. A null on
  the way to a path reads as not found.
- DriftDetection.External.Observe: for resources whose spec and status fit the Go types of the kind, and for kinds on
  which the walk is sound for the paths it accepts (`Eligibility.WalkIsSoundExactly` says for which types that is).
  On other kinds setting overlapping paths may fail or succeed depending on the random order of the map. Under this
  the error returns of reading and setting a path are proved unreachable, so they do not appear in the model.
- Go fields without a JSON tag, other than embedded structs: they are not written in this model.
- DriftDetection.Apply: decoding the substituted tree into the Go type succeeds exactly when the tree fits that type.
- Ownership.CarryForward: for ignored fields that status mirrors from the record, with the condition for `k3sVersion`
  stated separately, and for top-level fields, which are all that the two kinds have.
- BaseLayer.NormalizeAll: which of the error messages ends a run, beyond that one does.
- RefResolver.Resolver.ResolveReferences: what the server answers to a patch is not decoded back into the resource.
- Persist.SuccessMeansStored: the annotation may be changed again by others after the moment the loop saw it.
