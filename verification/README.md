# Verified model of the automatic recovery pipeline

The system watches the logs of machine-learning and service projects, turns error lines into events, and for a few
kinds of events repairs the project by changing one field of its JSON configuration. This project models that
pipeline and proves what it promises over whole runs.

One monitor cycle goes through these steps, each modelled in its own module.

1. `Watcher` follows remote log files with a watermark per file. `Delivery` proves that the byte ranges the watermark
   passes lie end to end, and when what was read is exactly the file. `RemoteTail` is what a tail of a file shows, and
   `Emissions` says which bytes the polls emit, and how often. `WatcherTheorems` proves that shadow mode cannot be
   noticed.
2. `Detector` and `Grouping` turn matched lines into groups, `Suppression` decides which events survive, and
   `Selection` which of them a cycle looks at.
3. `RateLimit` and `Monitor` admit events one by one; `MonitorTheorems` and `MonitorRuns` prove what a cycle and a
   run of cycles and restarts guarantee, with `StateStore` holding what survives a restart. `Pipeline` puts polls and
   cycles together, and `CycleCalls` the recovery calls of a run of cycles.
4. `Semantics`, `Registry`, `ShippedRegistry` and `Policy` are the rules and tables; `Gate` judges one event by them
   and `GateTheorems` says exactly when it allows a change. `GateVerdicts` and `PrecheckReasons` say what it answers in
   every other case, and why. `ShippedDomains` says what the shipped tables grant.
5. `Approvals` is the log of operator decisions, with `ApprovalHistory` on what an approval comes from and how long it
   lasts, and `ApprovalFlow` on the way from a blocked call over its request to the approved call; `Cooldown` is the
   spacing of live changes, with its laws in the project's own settings in `CooldownLaws`.
6. `Runner` ties gate, approval, reservation, apply, rerun and rollback together; `RunnerTheorems`, `RunnerActions`,
   `CooldownRuns` and `ApprovalRuns` prove its outcomes.
7. `Executor` and `RemoteExecutor` write the configuration and undo it; `ExecutorTheorems`, `UndoRuns`, `RegistryRuns`
   and `Agreement` prove what a sequence of them does, and `Rollbacks` when a rollback succeeds, what it leaves behind
   when it fails, and when it does nothing.
8. `ReportIndex` and `SeenCompactor` shorten the two logs that grow for ever.

`TextForm` writes a configuration tree as text and reads it back. `Witnesses`, `RunnerWitnesses` and
`ApprovalWitnesses` use it to build a machine on which the fixes write and recoveries happen, and on which failures
listed below are seen. `EmissionWitnesses` and `PipelineWitness` have runs of polls and of the whole pipeline.

`TextLaws` says what the small text helpers mean. Objects whose methods update fields in the program are classes here,
each with a function `State()` that gives its abstract value. Every method is proved equal to a function on that
value, and the theorems are about the functions. What comes from outside is a parameter: clock readings, port probes,
the result of the rerun, what regular expressions find, what the remote side answers, and whether a step raises.

Some results say that a stronger promise fails, and when exactly.

* A record of two edits is replayed first edit first. For the one fix that writes two fields, the rollback restores
  the file exactly when not both fields had to change (`ExecutorTheorems.GpuFixRollbackRestoresIff`, seen in
  `Witnesses.GpuRollbackKeepsPrecision`), and the fix writes without leaving a record exactly when one field is missing
  (`TwoFieldUnrecordedWriteIff`, seen in `Witnesses.GpuWritesUnrecorded`).
* Backups of one fix and file are named by the second. Two rollbacks restore two writes exactly when their names
  differ (`TwoRollbacksRestoreIff`, seen in `Witnesses.TwoWritesOneBackup`).
* A call that rolls back is meant to leave configuration files and records as they were. When recording the result
  raises, it rolls back once more, and an older fix may go with it. A remote change is judged without reading the file,
  so the apply may find nothing to write, and then already the first rollback is one too many. The state is as it should
  be exactly when there is no such rollback or it would be idle, and an older record goes exactly when it can be rolled
  back (`RunnerTheorems.RolledBackIff`, `WrittenThenRolledBackIff`, `NothingWrittenThenRolledBackIff`, seen in
  `RunnerWitnesses.OlderFixesAreLost`).
* A rollback that fails keeps its record but may have changed files: each file ends at the backup of its last edit that
  can be undone (`Rollbacks.FailedRollbackLeaves`, seen in `Witnesses.FailedRollbackChanges`).
* A range read that reports success is believed even when it is short or empty, since the status of the remote pipeline
  is that of its last command. With no answer longer than asked for, what was read is the file exactly when every
  believed answer is its slice (`Delivery.ExactlyOnceIff`, seen to fail in `Delivery.ShortReadLoses`).
* A byte is emitted once for every tail that shows it, and once more if the poll that moved the watermark past it read a
  range (`Emissions.EmittedTimes`). So bytes are emitted twice when a range read fails and the next one succeeds
  (`EmissionWitnesses.FailedReadRepeats`), but also without any failure: when they are appended between the status call
  and the tail call of one poll (`LateTailRepeats`), or when a later tail reaches back to them. `Emissions.ShownAgain`
  derives these causes for any tail that shows a byte which another poll passes.
* The watermark moves in the poll, before the cycle looks at the events. An event whose byte no tail shows has one
  chance: it is handled to completion exactly if the round that reads it selects it, every limit lets it through and its
  handling does not raise (`Pipeline.OneChance`, seen to fail in `PipelineWitness.RaisedIsLost`).
* Cooldowns space the live changes of one runner. A new runner, as each approved execution gets, starts with none:
  changes too close together need a change of runner in between (`CooldownRuns.CloseAppliesNeedRenewal`), and a change
  repeated at once by a new runner executes again (`SpacingEndsWithRunner`).
* Using an approval does not spend it. Two executions with one approval happen only if nothing was recorded for it in
  between (`ApprovalRuns.OneExecutionPerApproval`, `ApprovalFitsIff`, seen in `ApprovalWitnesses.ApprovalUsedTwice`).
* Where a person must approve, the gate may let an event through whose request nobody can approve: exactly when one of
  the planned edits is refused (`ApprovalFlow.AllowedAsksIff`, seen in `ApprovalWitnesses.NobodyCanApprove`). What is
  asked for because the evidence is ambiguous can be approved, but is then blocked again
  (`ApprovalFlow.ApprovedRepeatIff`, seen in `ApprovalWitnesses.ApprovedInVain`).
* The approval log checks the status of a request before an approval, and before nothing else: rejections, expiries and
  executions are appended for any request that exists (`Approvals.StatusFollowsIff`).
* The state file keeps the end of the alphabet of fingerprints, not the latest ones
  (`StateStore.RestartRemembersIff`). The comment beside it only speaks of limiting the size.
* Suppression of events is not idempotent (`Suppression.SecondPassDrops`, `SecondPassIff`).
* Shadow mode stores other watermarks than watermark mode exactly after a tail that failed
  (`WatcherTheorems.ShadowMarksAgreeIff`).
* Compacting the approval log with a limit of zero keeps everything, as the slice `records[-0:]` does
  (`Approvals.CompactKeepsCount`).

## Model

| member | source | states |
|---|---|---|
| `ConfigTree.GetNestedValue` | fixers/safe_config_editor.py:229-238 | the cursor walk finds the value at a path, or nothing where Python raises KeyError |
| `ConfigTree.PyEqSymmetric` | safe_recovery/semantics.py:22-36 | equality of values is symmetric |
| `ConfigTree.PyEqTransitive` | safe_recovery/semantics.py:22-36 | and transitive |
| `ConfigTree.PyEqScalars` | safe_recovery/semantics.py:22-36 | numbers, booleans and texts are compared as Python compares them, with booleans as the numbers 0 and 1 |
| `ConfigTree.LookupAfterUpdate` | fixers/safe_config_editor.py:241-254 | a write at a path is read back at that path |
| `ConfigTree.UpdateFrame` | fixers/safe_config_editor.py:241-254 | a write changes no path that diverges from it, present or absent |
| `ConfigTree.DivergeIsPrefixFree` | fixers/safe_config_editor.py:241-254 | two paths diverge exactly when neither is a prefix of the other |
| `TextForm.TextHostIsFaithful` | fixers/safe_config_editor.py:102-155 | there is a machine whose written configurations all read back as the tree they were written from |
| `Semantics.TransitionTrichotomy` | safe_recovery/semantics.py:15-156 | every change is a no-op, actionable or refused, never two of them, and a no-op exactly under Python equality |
| `Semantics.ActionableOnlyLowers` | safe_recovery/semantics.py:15-127 | an actionable change switches off, lowers a number, moves to an allowlisted local mode, or to a free port |
| `Semantics.TransitionIff` | safe_recovery/semantics.py:15-156 | a change is a no-op for equal values, made exactly if its rule allows it, and refused otherwise |
| `Semantics.RefusalIff` | safe_recovery/semantics.py:15-156 | why a change is refused, by rule and kinds of the values |
| `Semantics.AcceptanceIff` | safe_recovery/semantics.py:15-156 | why a change is made, by rule |
| `Semantics.DeferredIff` | safe_recovery/semantics.py:68-97 | a change is put off exactly for a port that nobody probed |
| `Semantics.TargetPortHostIs` | recovery/auto_recovery_runtime_controls.py:370-374 | the host whose port is probed |
| `Semantics.RemotePortHostIsLocal` | fixers/remote_safe_config_editor.py:269-377 | the script probes the same host as the local code for every configuration |
| `Semantics.RemoteRulesAreLocalRules` | fixers/remote_safe_config_editor.py:269-377 | the copy of the rules carried by the remote script agrees with the local rules on all inputs, down to the reason |
| `Registry.SpecByFix` | safe_recovery/registry.py:525-530 | a lookup by fix finds a listed specification with that fix, and nothing only if there is none |
| `Registry.SpecByEvent` | safe_recovery/registry.py:529-530 | a lookup by event type finds a listed specification for it, and nothing only if there is none |
| `Registry.SafeFixIsSafe` | safe_recovery/registry.py:800-828 | the fix looked up for an event type with a safe specification is a safe fix |
| `TextLaws.NormalizeIs` | policies/auto_recovery_policy.py:535-547 | a normalised text is the words of the text in lower case, joined by single blanks |
| `TextLaws.StripIff` | policies/auto_recovery_policy.py:535-547 | stripping removes white space at both ends and nothing else |
| `ShippedRegistry.ShippedConsistent` | safe_recovery/registry.py:57-522 | in the shipped table no two entries for one file give a field two targets or write through each other |
| `ShippedRegistry.ShippedIdsTrimmed` | safe_recovery/registry.py:57-522 | the shipped fix ids survive the trimming the executors do |
| `ShippedRegistry.ShippedHasGpuFix` | fixers/apply_executor.py:63-127 | the fix that writes two fields is in the shipped legacy table |
| `ShippedRegistry.CertifiedCompatible` | safe_recovery/registry.py:57-522 | fields whose paths and targets the certificate knows cannot contradict each other |
| `ShippedDomains.DomainIsUnique` | safe_recovery/registry.py:554-724 | every event type has one domain in the shipped tables, whatever the order of the entries |
| `ShippedDomains.SpecIsUnique` | safe_recovery/registry.py:525-544 | no two shipped specifications share an event type or a fix |
| `ShippedDomains.ShippedGrantsIff` | safe_recovery/registry.py:554-828 | the shipped tables grant recovery to exactly the event types of the safe specifications, each with its own fix |
| `ShippedDomains.ShippedManualNeverEligible` | safe_recovery/registry.py:570-724 | no event of a manual or diagnosed type is ever eligible, whatever the project and the evidence |
| `Hosts.BaseNameIs` | fixers/safe_config_editor.py:144-164 | the name in a backup is what follows the last slash of the path |
| `Hosts.BackupIsNotConfig` | fixers/safe_config_editor.py:144-164 | a backup is never written over the configuration it saves |
| `Hosts.BackupsCollideIff` | fixers/safe_config_editor.py:144-164 | two backups of one fix and one file have the same name exactly when their stamps agree |
| `Policy.ResolveByEventPolicy` | policies/auto_recovery_policy.py:174-296 | every decision that grants recovery rests on a safe event policy that lists the fix, outside all forbidden actions |
| `Policy.ResolveGrantsOnlyRegistryFix` | policies/auto_recovery_policy.py:147-296 | any policy that passes validation grants recovery only for the registry's own fix of a safe domain |
| `Policy.RuntimePolicyValidIff` | recovery/auto_recovery_runtime_gate.py:85-106 | the policy built at run time fails validation for two causes only |
| `Policy.DomainPolicyValidIff` | policies/auto_recovery_policy.py:379-462 | the policy of a domain is valid unless it makes the unknown event type recoverable |
| `Policy.RuntimeEventPolicy` | recovery/auto_recovery_runtime_gate.py:273-287 | the run-time policy has an entry for exactly the registered event types, made from the entry that wins |
| `Policy.RuntimePolicyIs` | recovery/auto_recovery_runtime_gate.py:85-287 | what the policy of a project says of each domain: who recovers, with which fix, what is required, and who needs a person |
| `Policy.ReasonIff` | policies/auto_recovery_policy.py:174-296 | which reason a decision gives under any policy: forbidden, unknown, by the layer of its entry, or the first objection of a safe entry |
| `Policy.LayerOfReason` | policies/auto_recovery_policy.py:174-296 | the layer, the need for a person and the audit flag of a decision, by its reason |
| `Policy.ValidPolicyIff` | policies/auto_recovery_policy.py:147-171 | a policy passes validation exactly under these conditions on its defaults, its allowlist and every entry |
| `Policy.AllowlistCleanIff` | policies/auto_recovery_policy.py:503-543 | an allowlist is clean exactly if none of its texts reads like a forbidden action |
| `Gate.DeferredPlan` | recovery/auto_recovery_runtime_controls.py:254-269 | a remote file that cannot be read counts every candidate as actionable |
| `GateTheorems.RuntimeGrantsIff` | recovery/auto_recovery_runtime_gate.py:233-287 | the run-time policy grants a fix exactly when the domain is safe, nothing forbids it and the allowlist, if any, has it |
| `GateTheorems.BuildPrecheckPassedIff` | recovery/auto_recovery_runtime_controls.py:22-105 | the precheck of a change passes with something to do exactly when the fix is of the event, there is an actionable edit, a directory and a rollback |
| `GateTheorems.PrecheckPassedIff` | recovery/auto_recovery_runtime_gate.py:290-360 | the whole precheck passes exactly under these twelve conditions |
| `GateTheorems.GateAllowsIff` | recovery/auto_recovery_runtime_gate.py:109-223 | the gate allows execution if and only if registry, project and evidence grant it, it is no dry run, the cooldown allows it and an edit is actionable |
| `GateTheorems.AllowedGateIsAuthorized` | recovery/auto_recovery_runtime_gate.py:109-223 | an allowed gate is live, safe-layer, audited, needs no operator, selects the registry fix and has a rollback |
| `GateTheorems.BlockedGateSaysWhy` | recovery/auto_recovery_runtime_gate.py:376-398 | the gate gives a reason exactly when it does not allow execution |
| `GateTheorems.ReasonsAreReasons` | recovery/auto_recovery_runtime_gate.py:290-360 | the precheck names ambiguous evidence exactly when the evidence is ambiguous |
| `GateTheorems.AllowedWasCandidate` | recovery/auto_recovery_runner.py:389-404 | an event the gate allows passed the candidate check on the same view, whatever the cooldown said then |
| `GateVerdicts.WithoutPolicy` | recovery/auto_recovery_runtime_gate.py:109-151 | with the policy switched off or invalid the verdict is disabled, with that reason, and a person is needed |
| `GateVerdicts.ForbiddenFix` | policies/auto_recovery_policy.py:188-199 | a forbidden fix is refused as disabled and needs a person |
| `GateVerdicts.UnknownEvent` | policies/auto_recovery_policy.py:201-210 | an event type without a domain is only diagnosed and needs nobody |
| `GateVerdicts.DiagnosedEvent` | policies/auto_recovery_policy.py:222-230 | an event of a diagnosed domain is only diagnosed and needs nobody |
| `GateVerdicts.ManualEvent` | policies/auto_recovery_policy.py:232-240 | an event of a manual domain is escalated to a person, with that reason |
| `GateVerdicts.UngrantedEvent` | policies/auto_recovery_policy.py:254-285 | an event of a safe domain without a fix, or with one the project does not list, is escalated with that reason |
| `GateVerdicts.GrantedVerdict` | recovery/auto_recovery_runtime_gate.py:109-223 | a granted event keeps its fix; ambiguous evidence, and nothing else, calls for a person and takes the safe layer |
| `GateVerdicts.EligibleVerdict` | recovery/auto_recovery_runtime_gate.py:376-398 | the reason for an eligible event: the first objection to the change, then no-op, nothing actionable, cooldown, dry run, none |
| `GateVerdicts.ActionableVerdict` | recovery/auto_recovery_runtime_gate.py:376-398 | with an actionable edit only the cooldown and the dry run can object |
| `GateVerdicts.CandidateIff` | recovery/auto_recovery_runner.py:389-404 | an event is a candidate exactly if it is eligible and the change passes its precheck |
| `PrecheckReasons.ReadStatusIff` | recovery/auto_recovery_runtime_controls.py:246-323 | a configuration file is deferred, missing, unsafe, invalid or read, each exactly under its condition |
| `PrecheckReasons.ChangeReasonIff` | recovery/auto_recovery_runtime_controls.py:22-105 | each objection to a change is recorded exactly under its own condition |
| `PrecheckReasons.SettingReasonIff` | recovery/auto_recovery_runtime_gate.py:290-360 | each objection of the project's settings is recorded exactly under its own condition |
| `PrecheckReasons.EvidenceReasonIff` | recovery/auto_recovery_runtime_gate.py:290-360 | each objection of fix, directory and evidence is recorded exactly under its own condition |
| `PrecheckReasons.AmbiguousIff` | recovery/auto_recovery_runtime_gate.py:548-645 | evidence is ambiguous exactly if there is some and a rule for the fix finds its two marks, or one mark without its context |
| `PrecheckReasons.NamesForbiddenIff` | recovery/auto_recovery_runtime_gate.py:504-512 | a text names a forbidden action exactly if the words of one, in lower case and one blank apart, stand in its own |
| `PrecheckReasons.PrecheckReasonIff` | recovery/auto_recovery_runtime_gate.py:290-360 | the objections of the precheck are those of ambiguity, change, settings and evidence, and no others |
| `PrecheckReasons.PlanCounts` | recovery/auto_recovery_runtime_controls.py:284-323 | the plan counts actionable, unsafe and no-op edits exactly as the executor would judge the candidates |
| `PrecheckReasons.NothingLeftIff` | recovery/auto_recovery_runtime_controls.py:22-105 | what the precheck counts, and when there is nothing left to do |
| `Cooldown.CooldownTracker.constructor` | recovery/auto_recovery_runtime_controls.py:109-144 | a new tracker remembers nothing and has the limits of the project |
| `Cooldown.CooldownTracker.CheckNow` | recovery/auto_recovery_runtime_controls.py:146-181 | a check changes nothing and allows exactly when no scope is blocked, and never for a missing key |
| `Cooldown.CooldownTracker.ReserveNow` | recovery/auto_recovery_runtime_controls.py:183-204 | a reservation stamps all three registries or none |
| `CooldownLaws.CheckIff` | recovery/auto_recovery_runtime_controls.py:119-243 | a check allows exactly if no key is missing and each of the three times configured for the project has elapsed since the stamp of its own key, and names exactly the scopes that block |
| `CooldownLaws.ReserveStamps` | recovery/auto_recovery_runtime_controls.py:183-204 | a reservation is made exactly when the check allows, and stamps the three keys of the event, each in its own registry |
| `Approvals.ApprovalStore.GetRequest` | monitors/trace_store.py:391-420 | the request record of an id |
| `Approvals.ApprovalStore.LatestRecord` | monitors/trace_store.py:387-401 | the newest record of an id |
| `Approvals.ApprovalStore.CreateRequestFromGate` | monitors/trace_store.py:182-251 | one request is appended, approvable exactly as the decision function says |
| `Approvals.ApprovalStore.ApproveRequest` | monitors/trace_store.py:253-278 | an approval is appended only for a pending approvable request |
| `Approvals.ApprovalStore.RejectRequest` | monitors/trace_store.py:280-302 | a rejection is appended for any request that exists, whatever its status; for an unknown id nothing is |
| `Approvals.ApprovalStore.ExpireRequest` | monitors/trace_store.py:304-326 | an expiry is appended for any request that exists, whatever its status; for an unknown id nothing is |
| `Approvals.ApprovalStore.RecordExecutionOf` | monitors/trace_store.py:328-371 | an execution result with a known status is appended for any request that exists; otherwise nothing is |
| `Approvals.ApprovalStore.CompactLog` | monitors/trace_store.py:406-411 | compaction keeps a suffix of the log |
| `Approvals.StepKeepsOrder` | monitors/trace_store.py:182-411 | every store call keeps the log well ordered |
| `Approvals.ApprovedOnceAndFirst` | monitors/trace_store.py:253-278 | anywhere in a run a request is approved at most once, and only right after its request record |
| `Approvals.RunKeepsOrder` | monitors/trace_store.py:182-411 | the log is well ordered after every sequence of calls |
| `Approvals.RunNeverReopens` | monitors/trace_store.py:387-445 | the status of a request only moves forward, over every sequence of calls with compactions |
| `Approvals.GrantNeedsPending` | monitors/trace_store.py:253-278 | what an approval call that grants requires and leaves |
| `Approvals.GrantedAtMostOnce` | monitors/trace_store.py:253-278 | no request is granted twice in any run |
| `Approvals.CompactKeepsStatus` | monitors/trace_store.py:406-445 | compaction keeps the status of every request whose request record survives |
| `Approvals.CompactKeepsCount` | monitors/trace_store.py:406-411 | compaction leaves as many records as the limit says if there are more, and all of them for no limit or a limit of zero |
| `Approvals.StatusFollowsIff` | monitors/trace_store.py:253-371 | a call of the store moves a request from one status to another exactly when that may follow: an approval only while the request is pending and approvable, a rejection, expiry or execution after any status, nothing for an unknown id |
| `Approvals.AppendedIs` | monitors/trace_store.py:182-371 | a call on a known request appends one record of its kind with the event and fix of the request; a call on an unknown one nothing |
| `Approvals.OtherStatusKept` | monitors/trace_store.py:253-371 | a call of the store leaves the status of every other request alone |
| `ApprovalHistory.StepOpenIff` | monitors/trace_store.py:253-445 | once decided, a request stays approved through one call exactly if the call does not touch it |
| `ApprovalHistory.StaysApprovedIff` | monitors/trace_store.py:253-445 | an approval lasts over any run exactly if no verdict, expiry or execution is recorded for its request |
| `ApprovalHistory.RequestIs` | monitors/trace_store.py:182-251 | a request is pending exactly if a person may approve the verdict it keeps, and not approvable otherwise |
| `ApprovalHistory.ApprovedWasAsked` | monitors/trace_store.py:182-445 | over any calls from an empty log, what is approved was asked for with the same event and fix, by a verdict that a person may approve |
| `Executor.SafeApplyExecutor.UpdateJsonField` | fixers/safe_config_editor.py:72-175 | one field is written after a backup, or nothing changes |
| `Executor.SafeApplyExecutor.RollbackEdit` | fixers/safe_config_editor.py:177-219 | a backup is copied back, or nothing changes |
| `Executor.SafeApplyExecutor.UpdateFirstSafeRegistryField` | fixers/apply_executor.py:181-295 | the first writable candidate is written and no other |
| `Executor.SafeApplyExecutor.WriteFirst` | fixers/apply_executor.py:225-295 | the loop over candidates, with its no-op and refusal results |
| `Executor.SafeApplyExecutor.Finalize` | fixers/apply_executor.py:320-355 | a record is pushed exactly when all results succeeded and a field was written |
| `Executor.SafeApplyExecutor.ApplySafeFix` | fixers/apply_executor.py:173-179 | applying a safe fix, on files and record stack |
| `Executor.SafeApplyExecutor.ApplyLegacyFix` | fixers/apply_executor.py:63-127 | applying a fix outside the registry: all its fields, a failure stops none |
| `Executor.SafeApplyExecutor.Apply` | fixers/apply_executor.py:63-127 | a fix by its trimmed name; unknown and empty names change nothing |
| `Executor.SafeApplyExecutor.RollbackLatest` | fixers/apply_executor.py:129-167 | the newest record is replayed forwards and popped exactly on success |
| `Executor.UnknownNameFails` | fixers/apply_executor.py:63-127 | the empty name and an unknown name fail and change nothing |
| `ExecutorTheorems.RollbackUndoesApply` | fixers/apply_executor.py:129-167 | a rollback after a write restores every file but the backup, and the record stack |
| `ExecutorTheorems.NoWriteNoChange` | fixers/apply_executor.py:181-355 | an application that pushes no record changed nothing |
| `ExecutorTheorems.RollbackPopsOnSuccessOnly` | fixers/apply_executor.py:129-167 | a failed rollback pops nothing, a successful one exactly the newest record |
| `ExecutorTheorems.RollbacksUndoRun` | fixers/apply_executor.py:129-167 | after any run of applies with fresh backups, as many rollbacks restore all files and the stack, last in first out |
| `UndoRuns.ForwardStepPushes` | fixers/apply_executor.py:63-127 | a registry fix or a one-field legacy fix pushes one record of one edit or changes nothing |
| `UndoRuns.RollbacksUndoChanges` | fixers/apply_executor.py:63-167 | over registry fixes, one-field legacy fixes and rollbacks in any order, as many rollbacks as the run is deep all succeed and bring back the start |
| `UndoRuns.BalancedRunRestores` | fixers/apply_executor.py:63-167 | a run that rolls back as often as it writes ends where it started |
| `Rollbacks.RestoreSucceedsIff` | fixers/safe_config_editor.py:177-219 | a record is restored exactly if each edit has its backup, there or made by an earlier edit, and a configuration inside the project |
| `Rollbacks.RollbackSucceedsIff` | fixers/apply_executor.py:129-167 | a rollback succeeds exactly if the newest record has edits and all of them can be restored |
| `Rollbacks.RestoreLeaves` | fixers/apply_executor.py:140-159 | every file ends at the backup of its last restorable edit, also when the record as a whole fails |
| `Rollbacks.ChangesNoFileIff` | fixers/apply_executor.py:140-159 | a rollback changes no file exactly if every configuration it restores already equals its backup |
| `Rollbacks.RollbackIdleIff` | fixers/apply_executor.py:129-167 | a rollback does nothing at all exactly if it fails and finds every file as it would leave it |
| `Rollbacks.FailedRollbackLeaves` | fixers/apply_executor.py:129-167 | a failed rollback keeps the records, and says of each file where it ends |
| `Rollbacks.FailedRollbackSettles` | fixers/apply_executor.py:129-167 | repeating a failed rollback fails again and changes nothing more |
| `Rollbacks.TwoRollbacksIdleIff` | fixers/apply_executor.py:129-167 | two rollbacks do nothing exactly if one does nothing |
| `Rollbacks.RollbackKeepsProper` | fixers/apply_executor.py:129-167 | no backup on the record stack is ever a configuration file, after a rollback |
| `Rollbacks.AppliedFixKeepsProper` | fixers/apply_executor.py:63-127 | nor after applying any fix |
| `ExecutorTheorems.TwoRollbacksRestoreIff` | fixers/safe_config_editor.py:144-164 | two writes to a file are undone exactly when their backups have different names |
| `ExecutorTheorems.TwoEditRecordEndsAtLastBackup` | fixers/apply_executor.py:140-159 | a record of two edits on a file leaves it at the second backup |
| `ExecutorTheorems.TwoFieldRollbackKeepsFirstEdit` | fixers/apply_executor.py:140-159 | the rollback of two written fields succeeds and leaves the first one changed |
| `ExecutorTheorems.TwoFieldRollbackExactForOneEdit` | fixers/apply_executor.py:140-159 | with one of two fields written the rollback is exact |
| `ExecutorTheorems.TwoFieldUnrecordedWriteIff` | fixers/apply_executor.py:320-355 | a two-field fix writes without a record exactly when one field is missing and the other changes |
| `ExecutorTheorems.GpuFixRollbackRestoresIff` | fixers/apply_executor.py:63-167 | for the shipped two-field fix: its rollback is exact if and only if not both fields had to change |
| `RegistryRuns.WriteOnlyLowers` | safe_recovery/semantics.py:15-127 | what an application writes was never refused, only lowers, and touches no other file but the backup |
| `RegistryRuns.WriteChangesOneField` | fixers/apply_executor.py:225-295 | every field that diverges from the written one keeps its value |
| `RegistryRuns.NoFieldWrittenTwice` | fixers/apply_executor.py:225-295 | along any run of registry fixes no field is written twice |
| `RegistryRuns.WritesAreDistinctFields` | fixers/apply_executor.py:225-295 | the writes of a run are as many different registered fields |
| `RegistryRuns.WritesBounded` | fixers/apply_executor.py:225-295 | so the writes of any run are at most the registered fields |
| `RemoteExecutor.RemoteUpdateByVerdict` | fixers/remote_safe_config_editor.py:269-377 | one call of the remote script does what the local verdict on that candidate says |
| `RemoteExecutor.RemoteSafeApplyExecutor.UpdateRemoteField` | fixers/remote_safe_config_editor.py:269-377 | one remote update: backup and write, no-op, or refusal |
| `RemoteExecutor.RemoteSafeApplyExecutor.ApplyFirstExistingRemoteField` | fixers/remote_apply_executor.py:234-284 | the loop that rereads the file for each candidate refines one local application |
| `RemoteExecutor.RemoteSafeApplyExecutor.RollbackLatest` | fixers/remote_apply_executor.py:164-205 | the remote rollback is the local one |
| `Agreement.PlanFindsFirstWritable` | recovery/auto_recovery_runtime_controls.py:284-323 | the first actionable planned edit is the executor's first writable candidate |
| `Agreement.PrecheckPredictsWrite` | recovery/auto_recovery_runtime_controls.py:57-74 | an application writes if and only if the precheck read the file, the file is a .json path and an edit was counted as actionable, and then writes the first one |
| `Runner.AutoRecoveryRunner.IsAutoRecoverCandidate` | recovery/auto_recovery_runner.py:389-404 | the candidate check is a gate evaluation that changes nothing |
| `Runner.AutoRecoveryRunner.ValidateApprovalForGate` | recovery/auto_recovery_runner.py:969-1005 | the first reason for which an approval does not fit the gate |
| `Runner.AutoRecoveryRunner.DecideCall` | recovery/auto_recovery_runner.py:419-493 | gate, approval and reservation of one call |
| `Runner.AutoRecoveryRunner.ApplyFix` | recovery/auto_recovery_runner.py:731-782 | the apply goes to the local or the remote executor |
| `Runner.AutoRecoveryRunner.RollbackIfNeeded` | recovery/auto_recovery_runner.py:784-830 | a rollback is tried exactly after an apply that was not confirmed by the rerun |
| `Runner.AutoRecoveryRunner.ExecuteCall` | recovery/auto_recovery_runner.py:539-621 | apply, rerun, rollback and the second rollback when recording raises |
| `Runner.AutoRecoveryRunner.Recover` | recovery/auto_recovery_runner.py:406-628 | a whole call, on cooldowns, approvals, files and records; an execution carries an authorized gate |
| `Runner.FreshGateIsAuthorized` | recovery/auto_recovery_runner.py:844-873 | every check of the authorization holds for an allowed gate |
| `Runner.DecidedGateIsAuthorized` | recovery/auto_recovery_runner.py:844-873 | and still after approval and reservation, so the authorization never raises |
| `RunnerActions.ActionIff` | recovery/auto_recovery_runner.py:630-690 | a call reports recovery exactly if it executes, and an escalation exactly if the policy calls for a person, a granted event is ambiguous or an approval is lacking |
| `RunnerActions.ReportsOnly` | recovery/auto_recovery_runner.py:630-690 | diagnosed and unknown events, granted dry runs and granted events in cooldown are only reported |
| `RunnerActions.FinalReason` | recovery/auto_recovery_runner.py:419-493 | the final verdict is the gate's, unless approval or reservation takes it back, with that reason |
| `RunnerActions.AuthorizationIff` | recovery/auto_recovery_runner.py:844-873 | the authorization passes exactly under its five conditions and otherwise names the first that fails |
| `RunnerActions.ApprovalProblemIff` | recovery/auto_recovery_runner.py:969-1005 | an approval covers a verdict exactly if store, request, status, event and fix fit, and otherwise the first misfit is named |
| `RunnerActions.NothingHappened` | recovery/auto_recovery_runner.py:419-535 | a call that does not execute reports no apply, rerun or rollback |
| `RunnerActions.UnknownFixFails` | recovery/auto_recovery_runner.py:731-782 | a fix that no table knows fails and changes nothing |
| `RunnerActions.NoRollbackNoSuccess` | recovery/auto_recovery_runner.py:538-628 | a call that does not roll back reports no successful rollback |
| `RunnerTheorems.RecoveryCases` | recovery/auto_recovery_runner.py:419-628 | a call that does not execute leaves files and records alone |
| `RunnerTheorems.ExecutesIff` | recovery/auto_recovery_runner.py:419-493 | a call executes if and only if the event is eligible, live, actionable, outside the cooldown at both readings, and approved where that is required |
| `RunnerTheorems.DryRunChangesNothing` | recovery/auto_recovery_runner.py:419-493 | under dry run no call changes a file, a record or a cooldown |
| `RunnerTheorems.ApprovalOnlyNarrows` | recovery/auto_recovery_runner.py:459-493 | an execution after approval was allowed by the fresh gate alone and matches an approved request |
| `RunnerTheorems.AmbiguousNeverExecutes` | recovery/auto_recovery_runtime_gate.py:174-188 | ambiguous evidence never executes, approved or not |
| `RunnerTheorems.ExecutionOutcome` | recovery/auto_recovery_runner.py:539-621 | the disk after an execution is one application of the registry fix and a known number of rollbacks |
| `RunnerTheorems.RecoveredOrRolledBack` | recovery/auto_recovery_runner.py:569-602 | recovered and rolled back exclude each other, and without rerun every live apply is rolled back |
| `RunnerTheorems.StableExecutionWritesIff` | recovery/auto_recovery_runner.py:731-753 | a stable execution writes exactly when the configuration is a JSON file |
| `RunnerTheorems.StableRecoveryOutcome` | recovery/auto_recovery_runner.py:569-602 | the three ends of a stable call, with the exact files and records of each |
| `RunnerTheorems.StableCallEnds` | recovery/auto_recovery_runner.py:569-602 | a stable call on a JSON file recovers exactly when the rerun succeeds and is rolled back exactly when it does not |
| `RunnerTheorems.ApplySucceedsIff` | fixers/apply_executor.py:181-355 | an application writes exactly if it finds a writable candidate, and succeeds exactly if it finds one or one already safe |
| `RunnerTheorems.RollsBackIff` | recovery/auto_recovery_runner.py:569-621 | a call rolls back exactly if it may execute, rollback is on, the apply finds a writable or safe field, and the rerun does not confirm it |
| `RunnerTheorems.RolledBackIff` | recovery/auto_recovery_runner.py:569-621 | of any call that rolls back, written or not, raising or not: files and records are as intended exactly if no stray rollback happens or it is idle, and an older record goes exactly if one can be rolled back |
| `RunnerTheorems.RecoveryKeepsProper` | recovery/auto_recovery_runner.py:406-628 | what RolledBackIff asks of the record stack holds after every call if it held before |
| `RunnerTheorems.WrittenThenRolledBackIff` | recovery/auto_recovery_runner.py:604-621 | after a write that is rolled back, files and records are the old ones exactly if recording does not raise or the second rollback is idle; an older record goes exactly if it raises and that record can be rolled back |
| `RunnerTheorems.NothingWrittenThenRolledBackIff` | recovery/auto_recovery_runner.py:784-830 | after an apply that wrote nothing, raising or not, files and records stay exactly if a rollback is idle; an older record goes exactly if it can be rolled back |
| `RunnerWitnesses.RecoveryHappens` | recovery/auto_recovery_runner.py:406-628 | on a machine that writes, the call executes, and the file has the new setting or its old bytes as the rerun says |
| `RunnerWitnesses.OlderFixesAreLost` | recovery/auto_recovery_runner.py:569-621 | concrete machine and files: a raising call after a write, and a remote call with nothing to write, each take an older fix back |
| `Witnesses.RegistryRunWrites` | fixers/apply_executor.py:225-295 | there is a run of registry fixes on a faithful machine that writes |
| `Witnesses.TwoWritesOneBackup` | fixers/safe_config_editor.py:144-164 | two writes under one backup name, after which two rollbacks leave the first write in the file |
| `Witnesses.GpuRollbackKeepsPrecision` | fixers/apply_executor.py:63-167 | the shipped two-field fix on a file where both fields change: its rollback succeeds and keeps the new precision |
| `Witnesses.GpuWritesUnrecorded` | fixers/apply_executor.py:320-355 | the same fix on a file without the second field: the file changes and no record is left |
| `Witnesses.FailedRollbackChanges` | fixers/apply_executor.py:129-167 | a rollback that fails, keeps its record and has changed the file |
| `CooldownRuns.StampsIffExecuted` | recovery/auto_recovery_runner.py:479-493 | a call stamps all three registries if it executes and none otherwise |
| `CooldownRuns.ExecutionRemembered` | recovery/auto_recovery_runtime_controls.py:183-243 | the stamp of an execution, or a later one, is still there at every later call |
| `CooldownRuns.AppliesAreSpaced` | recovery/auto_recovery_runtime_controls.py:146-243 | two live applies of a scope are at least its cooldown apart, over any run |
| `CooldownRuns.AppliesInWindow` | recovery/auto_recovery_runtime_controls.py:146-243 | n live applies stamped within [a, b] satisfy (n - 1) cooldowns <= b - a |
| `CooldownLaws.AppliesApart` | recovery/auto_recovery_runtime_controls.py:119-243 | over any run of one runner two live applies are at least the project's configured seconds apart, those for one event type its event-type seconds, those for one fingerprint its fingerprint seconds |
| `CooldownLaws.ProjectWindow` | recovery/auto_recovery_runtime_controls.py:119-243 | n live applies stamped within [a, b] satisfy (n - 1) times the configured project seconds <= b - a |
| `CooldownLaws.EventTypeWindow` | recovery/auto_recovery_runtime_controls.py:119-243 | the same for one event type and its configured seconds |
| `CooldownLaws.FingerprintWindow` | recovery/auto_recovery_runtime_controls.py:119-243 | the same for one fingerprint and its configured seconds |
| `CooldownLaws.CloserNeedsRenewal` | web_ui/approved_recovery_worker.py:402-414 | live applies closer than the configured project seconds have a new runner in between |
| `CooldownLaws.NoCooldownIff` | recovery/auto_recovery_runtime_controls.py:119-121 | there is no cooldown at all exactly if none of the three configured times is positive |
| `CooldownRuns.CloseAppliesNeedRenewal` | web_ui/approved_recovery_worker.py:402-414 | over several runners, two live applies closer than the cooldown happen only with a new runner in between |
| `CooldownRuns.SpacingEndsWithRunner` | web_ui/approved_recovery_worker.py:402-414 | a call that executed executes again at once on a new runner, and on the old one exactly when all cooldowns are zero |
| `ApprovalRuns.RecoveryLog` | recovery/auto_recovery_runner.py:406-628 | a call with an approval leaves the approval log as it is; one without adds at most a request |
| `ApprovalRuns.ApprovalFitsIff` | recovery/auto_recovery_runner.py:969-1005 | an approval that fits a verdict still fits it later exactly if its request is kept and nothing was recorded for it |
| `ApprovalRuns.OneExecutionPerApproval` | recovery/auto_recovery_runner.py:459-493 | two executions with one approval need that no execution, nor anything else, was recorded for it in between |
| `ApprovalFlow.GateApprovableIff` | recovery/auto_recovery_runtime_gate.py:109-223 | a verdict of the gate can be approved exactly if the event is eligible but for ambiguity, an edit is actionable and none is refused |
| `ApprovalFlow.AsksForApprovalIff` | recovery/auto_recovery_runner.py:419-493 | a call leaves a request that is pending and approvable exactly if the event may be approved and its evidence is ambiguous, or a person must approve what the gate lets through |
| `ApprovalFlow.AllowedAsksIff` | monitors/trace_store.py:182-251 | where a person must approve and the gate lets the event through, the request is approvable exactly if no planned edit is refused |
| `ApprovalFlow.ApprovedRepeatIff` | recovery/auto_recovery_runner.py:459-493 | once that request is approved, the repeated call executes exactly if the evidence is not ambiguous and the cooldowns allow the reservation |
| `ApprovalWitnesses.ApprovalUsedTwice` | recovery/auto_recovery_runner.py:459-493 | two calls that execute with one approval, without a word in the log |
| `ApprovalWitnesses.NobodyCanApprove` | monitors/trace_store.py:182-251 | a call the gate lets through, in a project where a person must approve, whose request cannot be approved |
| `ApprovalWitnesses.ApprovedInVain` | recovery/auto_recovery_runner.py:459-493 | an ambiguous event whose request is approved and whose repeated call does not execute |
| `RateLimit.RateLimitTracker.StartCycle` | monitors/rate_limit_tracker.py:58-59 | the counters of the cycle restart, the memories stay |
| `RateLimit.RateLimitTracker.AllowEvent` | monitors/rate_limit_tracker.py:61-70 | the limit on events of a cycle |
| `RateLimit.RateLimitTracker.RecordEventHandled` | monitors/rate_limit_tracker.py:72-73 | one more event is handled |
| `RateLimit.RateLimitTracker.ReserveReportCapacity` | monitors/rate_limit_tracker.py:75-115 | a report is reserved with all its counters, or nothing changes |
| `RateLimit.RateLimitTracker.ReserveCycleReportCapacity` | monitors/rate_limit_tracker.py:117-124 | the reservation of the summary |
| `RateLimit.RateLimitTracker.ReserveAlertCapacity` | monitors/rate_limit_tracker.py:126-193 | an alert is reserved with all its counters, or nothing changes |
| `RateLimit.RunKeepsAlertsConsistent` | monitors/rate_limit_tracker.py:126-167 | after any calls the alerts add up by type, and whoever alerted has a last alert |
| `RateLimit.FingerprintAlertsOnce` | monitors/rate_limit_tracker.py:126-167 | a fingerprint alerts at most once in a process |
| `RateLimit.AlertCooldownNeverRefuses` | monitors/rate_limit_tracker.py:152-161 | the cooldown of alerts never refuses one |
| `RateLimit.AlertVerdictIff` | monitors/rate_limit_tracker.py:126-167 | an alert is granted exactly if it is new, fits the cycle and its type and no cooldown runs; otherwise the first objection is named |
| `RateLimit.ReportGrantedIff` | monitors/rate_limit_tracker.py:75-115 | a report is granted exactly if it fits the cycle and its type and the cooldown of its fingerprint is over |
| `RateLimit.RunStaysLimited` | monitors/rate_limit_tracker.py:58-193 | within a cycle reports and alerts stay within all limits, over any run |
| `RateLimit.CountersTell` | monitors/rate_limit_tracker.py:58-193 | at any time of a run the counters are the events handled in the cycle so far and its reports and alerts of each type |
| `RateLimit.EventAllowedIff` | monitors/rate_limit_tracker.py:61-73 | an event is allowed exactly while fewer than the limit were handled in the cycle |
| `RateLimit.ReportsAreSpaced` | monitors/rate_limit_tracker.py:75-193 | two reports for one fingerprint are the configured seconds apart, over all cycles of a process |
| `StateStore.Sorted` | monitors/monitor_loop.py:371 | the list that is saved holds each fingerprint once |
| `StateStore.MonitorStateStore.Load` | monitors/state_store.py:137-149 | the saved state, or an empty one |
| `StateStore.MonitorStateStore.Save` | monitors/state_store.py:151-163 | the state is saved with the end of its fingerprint list |
| `StateStore.RestartRemembersIff` | monitors/state_store.py:151-163 | a restart remembers a fingerprint exactly when fewer than the limit come after it in the alphabet |
| `StateStore.RestartRemembersAllIff` | monitors/state_store.py:151-163 | a restart remembers everything exactly when there is room for everything |
| `Monitor.MonitorLoop.constructor` | monitors/monitor_loop.py:106-133 | what a process starts with, with and without persistence |
| `Monitor.MonitorLoop.MarkEventSeen` | monitors/monitor_loop.py:365-387 | a completed event enters the seen set, the total and the state file |
| `Monitor.MonitorLoop.CheckCandidate` | monitors/monitor_loop.py:297-324 | the candidate check; one that raises answers no |
| `Monitor.MonitorLoop.Handle` | monitors/monitor_loop.py:887-907 | one handling, which may raise before or after the recovery |
| `Monitor.MonitorLoop.ReserveForEvent` | monitors/monitor_loop.py:863-885 | the limit on candidates and the report reservation |
| `Monitor.MonitorLoop.AdmitEvent` | monitors/monitor_loop.py:850-885 | everything that comes before the handling of an event |
| `Monitor.MonitorLoop.Treat` | monitors/monitor_loop.py:850-907 | one iteration of the cycle |
| `Monitor.MonitorLoop.HandleEvents` | monitors/monitor_loop.py:850-936 | the loop over the selected events, with the summary reservation |
| `Monitor.MonitorLoop.RunOnce` | monitors/monitor_loop.py:815-936 | a whole cycle over what the poll detected: selection, loop and summary |
| `MonitorTheorems.ExecutedWasChecked` | monitors/monitor_loop.py:863-890 | an event that executes was counted as a candidate, in stable circumstances |
| `MonitorTheorems.AtMostOneLiveApply` | monitors/monitor_loop.py:863-890 | a cycle makes at most one live apply, plus one for each event whose circumstances changed after its check |
| `MonitorRuns.MarkKeepsAccounted` | monitors/monitor_loop.py:365-387 | marking an unseen event keeps seen set, total and file in step |
| `MonitorRuns.StepKeeps` | monitors/monitor_loop.py:848-936 | every cycle and every restart that fits keeps the account |
| `MonitorRuns.HandledOnce` | monitors/monitor_loop.py:850-907 | over any run no fingerprint is completed twice, the total grows by the newly seen ones, attempts for one fingerprint are a report cooldown apart |
| `MonitorRuns.CycleWithinLimits` | monitors/monitor_loop.py:850-907 | completed and failed events are the attempts, within the limits on events and reports |
| `MonitorRuns.SummaryNeverRefused` | monitors/monitor_loop.py:931-936 | with the default limits the summary is never refused, and at most two events are handled when each asks for two reports |
| `CycleCalls.CyclesAreRecoveryRun` | monitors/monitor_loop.py:850-907 | the recovery calls that all cycles of one process make are a run of one runner, so whatever holds of such runs holds of them |
| `CycleCalls.LivesInWindow` | monitors/monitor_loop.py:850-907 | over any run of cycles of one process, n live applies stamped within [a, b] satisfy (n - 1) project cooldowns <= b - a |
| `CooldownLaws.LivesAsConfigured` | monitors/monitor_loop.py:850-907 | the window bound for all cycles of one process, in the seconds configured for the project |
| `Pipeline.PollOfOneFile` | monitors/log_watcher.py:133-161 | what a poll of one file emits and the watermarks it leaves are those of the poll of that file by watermark |
| `Pipeline.CycleCompletesIff` | monitors/monitor_loop.py:850-907 | a cycle handles a fingerprint to completion exactly if an event it looks at has it, is new, passes every limit in its turn, and its handling does not raise |
| `Pipeline.RunCompletesIff` | monitors/monitor_loop.py:826-907 | over a run of polls and cycles a fingerprint is completed exactly if some round completes it |
| `Pipeline.HandledWhereEmitted` | monitors/monitor_loop.py:826-907 | an event that is found only in texts that show a byte is completed exactly if a round does so whose poll emits that byte |
| `Pipeline.OneChance` | monitors/monitor_loop.py:826-907 | if moreover no tail shows the byte, the event is completed exactly if the one poll that passes the byte reads it and its own cycle completes the event |
| `PipelineWitness.RaisedIsLost` | monitors/monitor_loop.py:826-907 | a run in which an event is detected, its handling raises, and the next poll, with the watermark at the end, finds nothing |
| `Selection.SelectEventsForCycle` | monitors/monitor_loop.py:230-287 | the aggregation, ordering and truncation of detected events |
| `Selection.ChosenStandsFor` | monitors/monitor_loop.py:256-270 | for every detected event one of its type and fingerprint is chosen that is at least as severe |
| `Selection.ChosenIs` | monitors/monitor_loop.py:252-270 | each chosen event is the first among the most severe of its type and fingerprint |
| `Selection.ChosenInOrder` | monitors/monitor_loop.py:252-270 | the chosen events stand in the order in which their identities first occur |
| `Selection.NoOneIsOvertaken` | monitors/monitor_loop.py:272-287 | an event that is left out never has a smaller key than one that is taken |
| `Selection.TakenIsMoreUrgent` | monitors/monitor_loop.py:242-287 | what is taken comes before what is left: new before seen, then the smaller priority number, then the graver severity, then the earlier line |
| `Selection.TakenInOrder` | monitors/monitor_loop.py:272-287 | and the cycle takes them in that order |
| `Selection.TiesAsDetected` | monitors/monitor_loop.py:270-287 | events that are equally urgent are taken in the order of detection |
| `Selection.TakenCount` | monitors/monitor_loop.py:282-287 | as many are taken as there are, at most three and at most what the project allows |
| `Selection.PriorityOrder` | monitors/monitor_loop.py:242-248 | five types come first, in this order |
| `Selection.SeverityOrder` | monitors/monitor_loop.py:249-255 | five severities, in this order, above all others |
| `Selection.SeenOnlyAfterNew` | monitors/monitor_loop.py:272-287 | an event seen before is looked at only when every new one is represented |
| `Selection.SelectedOnce` | monitors/monitor_loop.py:256-287 | no type and fingerprint is selected twice |
| `Selection.SelectedWasDetected` | monitors/monitor_loop.py:230-287 | only detected events are selected |
| `Watcher.RemoteLogWatcher.TailOnlyOf` | monitors/log_watcher.py:428-457 | the poll without watermarks |
| `Watcher.RemoteLogWatcher.TailFallbackOf` | monitors/log_watcher.py:359-426 | the fallback on the tail, with and without output, and when it stores the watermark |
| `Watcher.RemoteLogWatcher.ReadRange` | monitors/log_watcher.py:303-357 | a range read and its fallback |
| `Watcher.RemoteLogWatcher.ReadIncremental` | monitors/log_watcher.py:220-256 | the poll of a file that kept its inode and did not shrink |
| `Watcher.RemoteLogWatcher.ReadAfterReset` | monitors/log_watcher.py:258-301 | the poll of a file that shrank or was replaced |
| `Watcher.RemoteLogWatcher.PollByWatermark` | monitors/log_watcher.py:163-218 | the branches of a poll by watermark |
| `Watcher.RemoteLogWatcher.PollOnePath` | monitors/log_watcher.py:153-161 | shadow, disabled and enabled mode |
| `Watcher.RemoteLogWatcher.PollAll` | monitors/log_watcher.py:133-151 | one poll of all files, with its counters and notices |
| `WatcherTheorems.WatermarkMovesIff` | monitors/log_watcher.py:163-426 | the watermark of the polled file, and of no other, moves exactly when the calls it rests on succeeded |
| `WatcherTheorems.EmitsIff` | monitors/log_watcher.py:303-426 | a poll emits at most one chunk, of the answer it used, unless that is blank; bytes and errors are booked accordingly |
| `WatcherTheorems.DemandIff` | monitors/log_watcher.py:163-301 | what a poll asks for: the bytes since the watermark, or since the beginning after a reset, are nothing, a range of exactly them, or too many |
| `WatcherTheorems.MarkIs` | monitors/log_watcher.py:459-479 | the stored watermark is what the status said, with strategy, reason and skipped bytes |
| `WatcherTheorems.TailPollEmits` | monitors/log_watcher.py:428-457 | in shadow and disabled mode a poll emits a log chunk exactly when the tail succeeded with more than white space and an error chunk exactly when it failed with a code or was not allowed; the bytes are those of the tail and of a range that shadow mode read |
| `WatcherTheorems.TailPollBooks` | monitors/log_watcher.py:153-161 | shadow and disabled mode count their tail once and book nothing else |
| `WatcherTheorems.PollCounts` | monitors/log_watcher.py:481-543 | a poll by watermark counts the strategy it used, once |
| `WatcherTheorems.PollNotices` | monitors/log_watcher.py:481-543 | it notices a fallback and a reset with the reason, and nothing else |
| `WatcherTheorems.PollErrors` | monitors/log_watcher.py:163-357 | it books a failed status and a failed range read as errors of the file |
| `WatcherTheorems.EnabledPollIs` | monitors/log_watcher.py:153-161 | with watermarks enabled a file is polled by its watermark, and what is found is emitted |
| `WatcherTheorems.PollStartsFresh` | monitors/log_watcher.py:133-151 | a poll starts with the watermarks alone |
| `WatcherTheorems.OffsetIsSize` | monitors/log_watcher.py:459-479 | the stored offset is the stored size |
| `WatcherTheorems.PollObserves` | monitors/log_watcher.py:481-543 | a poll counts one strategy a file, two in shadow mode, and notices every fallback and reset |
| `WatcherTheorems.ShadowEmitsTails` | monitors/log_watcher.py:153-161 | a poll in shadow mode emits what it would emit with watermarks disabled |
| `WatcherTheorems.ShadowIsInvisible` | monitors/log_watcher.py:153-161 | the same over every history of polls |
| `WatcherTheorems.ShadowMarksAgreeIff` | monitors/log_watcher.py:378-406 | shadow and enabled mode store the same watermarks exactly when the poll does not rest on a failed tail |
| `WatcherTheorems.ShadowMarksEvolveAlike` | monitors/log_watcher.py:378-406 | over every history of successful tails the watermarks of both modes are the same |
| `RemoteTail.LinesBackAreLines` | tools/remote_ssh_executor.py:224-240 | the tail begins with a line and has as many lines as were asked for, unless the file has fewer |
| `RemoteTail.LastLinesAre` | tools/remote_ssh_executor.py:224-240 | a line feed at the very end ends the last line; the lines shown are as many as asked for, or all |
| `RemoteTail.TailShowsSlice` | tools/remote_ssh_executor.py:182-240 | the answer of a tail is a part of the file, behind a notice if it was cut |
| `RemoteTail.OnlySpaceFollows` | tools/remote_ssh_executor.py:182-202 | what the file holds behind that part is white space |
| `RemoteTail.BlankIff` | tools/remote_ssh_executor.py:538-547 | an answer is blank exactly if that part is empty |
| `RemoteTail.LinesAsked` | tools/remote_ssh_executor.py:224-240 | twenty lines at least and two thousand at most are asked for |
| `RemoteTail.KeptIs` | tools/remote_ssh_executor.py:538-547 | an answer that is too long keeps its end, as long as the limit says, and a limit of zero cuts nothing off |
| `RemoteTail.DecimalReads` | tools/remote_ssh_executor.py:538-547 | the number in the notice is its decimal |
| `Delivery.AdvanceTiles` | monitors/log_watcher.py:220-301 | what an advance passes lies between the old and the new watermark |
| `Delivery.StepKeepsFollowing` | monitors/log_watcher.py:163-426 | every poll keeps the passed spans end to end up to the watermark |
| `Delivery.NothingPassedTwice` | monitors/log_watcher.py:163-426 | through any appends, truncations, rotations and failures the spans passed by the watermark lie end to end |
| `Delivery.PassedIsExact` | monitors/log_watcher.py:163-426 | if every range answer is its slice and every truncation noticed, each span read is the slice of the file at that place |
| `Delivery.DeliveredIff` | monitors/log_watcher.py:303-345 | answers no longer than asked for concatenate to the file between start and watermark exactly if each of them is its slice |
| `Delivery.TilesDeliver` | monitors/log_watcher.py:238-247 | every byte passed was read or counted as skipped |
| `Delivery.StartStays` | monitors/log_watcher.py:187-256 | where following a growing file began never moves |
| `Delivery.ExactlyOnce` | monitors/log_watcher.py:187-256 | for a file that only grows, answers that are right are exactly the file from the start to the watermark, in order |
| `Delivery.ExactlyOnceIff` | monitors/log_watcher.py:187-345 | for a file that only grows, what was read is the file from the start to the watermark if and only if every believed answer is its slice |
| `Delivery.ShortReadLoses` | monitors/log_watcher.py:303-345 | a concrete run in which a short answer is believed and a byte is lost |
| `Emissions.CoverIsEmitted` | monitors/log_watcher.py:303-426 | when the answers are what the file held at each call, a poll emits a log chunk exactly if it covers a part of the file, and the text of the answer used is that part, behind a notice if a tail was cut |
| `Emissions.RangeChunksDisjoint` | monitors/log_watcher.py:220-357 | the parts of a growing file emitted from range reads never overlap, and come in the order of the file |
| `Emissions.PassedByOnePoll` | monitors/log_watcher.py:187-256 | every byte between start and watermark is passed by exactly one poll |
| `Emissions.EmittedByIff` | monitors/log_watcher.py:173-426 | a poll emits a byte exactly if it passes it and shows the range it read, or shows it in a tail of the file as it is when the tail is read; bootstrap and oversized growth included |
| `Emissions.EmittedTimes` | monitors/log_watcher.py:173-426 | a passed byte is emitted as often as tails show it, and once more if the poll that passed it read a range that is not blank |
| `Emissions.EmittedOnceIff` | monitors/log_watcher.py:173-426 | a passed byte that no tail shows is emitted by the poll that passed it, if that read it, and by no other |
| `Emissions.ShownAgain` | monitors/log_watcher.py:173-426 | a tail that shows a byte before it is passed left the watermark or was read after the byte was appended behind its status; one that shows it afterwards reaches back behind the watermark |
| `EmissionWitnesses.FailedReadRepeats` | monitors/log_watcher.py:313-357 | for any text that a tail shows whole, a run that emits it from the tail and then again from a range read |
| `EmissionWitnesses.LateTailRepeats` | monitors/log_watcher.py:173-196 | a run without a failed call that emits a text twice, because it was appended between the status call and the tail call of the first poll |
| `Detector.CollectRuleLineMatches` | detectors/error_event_detector.py:657-672 | the matches of a rule, line by line |
| `Detector.MatchesInOrder` | detectors/error_event_detector.py:657-672 | matches come in the order of their lines |
| `Detector.LineMatchedIff` | detectors/error_event_detector.py:657-672 | a line is matched exactly when a pattern finds something in it |
| `Detector.KeywordsAre` | detectors/error_event_detector.py:657-672 | the keywords of a line are what its patterns find, one each, in the order of the patterns |
| `Detector.MatchIff` | detectors/error_event_detector.py:657-672 | a match names a line and what some pattern finds in it, and there is no other |
| `Detector.GroupRuleLineMatches` | detectors/error_event_detector.py:674-718 | groups that concatenate to the matches, each match joining its group, no group able to join the one before |
| `Grouping.GroupingIsGreedy` | detectors/error_event_detector.py:674-718 | there is only one such grouping, the greedy one |
| `Grouping.OneMarker` | detectors/error_event_detector.py:694-708 | no two different markers stand in one group |
| `Grouping.SmallGaps` | detectors/error_event_detector.py:694-708 | in a group the next match is at most three lines on |
| `Grouping.NeighboursApart` | detectors/error_event_detector.py:694-713 | neighbouring groups never share a line and are apart by more than three lines or by a change of marker |
| `Suppression.SuppressGenericEvents` | detectors/error_event_detector.py:566-636 | the events that survive, in their order |
| `Suppression.SurvivesLoops` | detectors/error_event_detector.py:604-634 | the loops over manual and specialised events decide survival |
| `Suppression.ScopeIsSymmetric` | detectors/error_event_detector.py:638-655 | being in the same scope is symmetric |
| `Suppression.SameScopeIff` | detectors/error_event_detector.py:638-655 | two events are in one scope exactly if their spans share a position, their lines are at most three apart, or one excerpt stands in the other |
| `Suppression.IsolatedSurvives` | detectors/error_event_detector.py:566-636 | an event that shares none of these with any other survives |
| `Suppression.SuppressorSurvives` | detectors/error_event_detector.py:605-623 | a manual event that suppresses a safe one survives |
| `Suppression.DroppedIsExplained` | detectors/error_event_detector.py:603-636 | every event is linked by dominating events of its scope to a survivor |
| `Suppression.ShippedDropsExplained` | detectors/error_event_detector.py:567-593 | with the shipped tables by three links at most |
| `Suppression.SomethingSurvives` | detectors/error_event_detector.py:566-636 | nothing survives only when nothing was detected |
| `Suppression.NoOneSavedTwice` | detectors/error_event_detector.py:617-623 | what saved a manual event does not survive it |
| `Suppression.SecondPassIff` | detectors/error_event_detector.py:566-636 | a second pass changes nothing exactly when no survivor dominates another as a specialised event |
| `Suppression.SecondPassDrops` | detectors/error_event_detector.py:566-636 | three events for which a second pass drops a survivor |
| `Suppression.DedupeDetectAllEvents` | detectors/error_event_detector.py:736-748 | the first event of each type and fingerprint |
| `Suppression.FirstOfEachCovers` | detectors/error_event_detector.py:736-748 | every type and fingerprint is kept |
| `Suppression.FirstOfEachDistinct` | detectors/error_event_detector.py:736-748 | and kept once |
| `Suppression.RefineEvents` | detectors/error_event_detector.py:559-564 | the last steps of detection |
| `Suppression.EventIsAnswered` | detectors/error_event_detector.py:559-564 | every event that counts leads to an event of the result |
| `ReportIndex.ReportIndexStore.RegisterReport` | monitors/report_index_store.py:62-100 | a record is appended |
| `ReportIndex.ReportIndexStore.Reports` | monitors/report_index_store.py:210-228 | the latest record of each report, newest first, and the page asked for |
| `ReportIndex.ReportIndexStore.Compact` | monitors/report_index_store.py:284-287 | the log is replaced by the reversed rows |
| `ReportIndex.CompactKeepsLatest` | monitors/report_index_store.py:284-287 | compaction keeps the latest record of every report, once |
| `ReportIndex.CompactionIsInvisible` | monitors/report_index_store.py:210-287 | readers see the same rows after compaction, whatever is registered later |
| `ReportIndex.PageIs` | monitors/report_index_store.py:210-228 | a page is the rows from the offset on, as many as the limit allows |
| `ReportIndex.RowsNewestFirst` | monitors/report_index_store.py:210-228 | rows come newest first, then by id |
| `ReportIndex.LatestIsLast` | monitors/report_index_store.py:210-228 | the record seen for an id is the last one registered with it |
| `SeenCompactor.SplitRecords` | monitors/seen_fingerprints_compactor.py:245-312 | the two lists, in the order of their places |
| `SeenCompactor.ListedInPlace` | monitors/seen_fingerprints_compactor.py:305-312 | both lists are in the order of the places of their records |
| `SeenCompactor.CountKeepIff` | monitors/seen_fingerprints_compactor.py:267-272 | the count limit speaks for the records that fewer than the limit are newer than |
| `SeenCompactor.DroppedIff` | monitors/seen_fingerprints_compactor.py:278-312 | a record is dropped exactly when every limit given speaks against it and it is not rescued; the two lists split the records and something is kept |
| `SeenCompactor.CountLimitKeeps` | monitors/seen_fingerprints_compactor.py:267-303 | under a count limit alone exactly the newest are kept, as many as the limit |
| `SeenCompactor.DroppedIsOlder` | monitors/seen_fingerprints_compactor.py:255-272 | of a kept and a dropped record the dropped one is older, or at the same time earlier in the list |
| `Sorting.SortedBy` | monitors/seen_fingerprints_compactor.py:255-262 | sorting a set loses and repeats nothing |
| `Sorting.SortedRank` | monitors/seen_fingerprints_compactor.py:255-272 | an element's place is the number of elements before it |

## Left out

- JSON text: `parse` and `render` are functions of the host; that a rendered tree parses to itself is assumed where a
  lemma says `Faithful`. `TextForm` shows that such a host exists, with a text form of its own and not that of JSON.
- Numbers: every finite double is there, as a mantissa and a power of two, with one zero. Infinities, NaN and the sign
  of zero are not. Integers have no bound.
- The texts of descriptions, forbidden actions and ambiguity rules in the shipped tables; results about the shipped
  tables hold whatever they are.
- The tree of a configuration is updated as a value; the program changes nested dictionaries in place.
- Text is a sequence of characters, one byte each; lower-casing is that of ASCII. Undecodable bytes are not modelled.
- Diff files and diff text beside the backups, trace events, Markdown reports, notifications and the wording of
  messages.
- The lists of suppressed events, reports and alerts that the rate limiter collects for display.
- SSH: a remote call is delivered and answered. Timeouts appear as failed calls, and answers are cut only in
  `RemoteTail`.
- Fixes outside the registry on the remote side, and the read of a remote diff.
- Errors while reading or writing the record stack and the state file; a damaged state file reads as an empty one.
- Two processes at once: every store call is atomic, so a compaction that runs between the read and the rewrite of
  another one, or between an append and its lock, is not covered.
- Sessions: applying, rolling back and rerunning go straight to the executors and to a given result.
- The runner's compatibility decision, fix plan texts and audit payloads, which do not influence what is executed.
- Policies read from mappings: the coercion of layers, risks and confidences; events carry full confidence.
- Malformed watermarks: an offset that is no number. A stored watermark here has an integer offset.
- The local log watcher, whose offsets are positions of a decoding text reader, and the health checks.
- Detection up to the matches: patterns, excerpts, signatures and fingerprints are given. `detect`, the older entry
  point, is not modelled, nor is the sorting of groups into events by line and rule.
- The alerts of an event are not part of a cycle here; their reservations are covered by runs of the rate limiter.
- An exception outside the handling of an event, which ends the cycle, and the reports written during handling.
- Monitor.MonitorLoop.RunOnce: starts from the events detected in the poll. `Pipeline` composes poll, detection and
  cycle on the functions, for one remote file and one process, with detection as a parameter.
- SeenCompactor.DroppedIff: is stated for different fingerprints, as a state file has them; for repeated ones the
  program may list a fingerprint both as kept and as dropped.
- Delivery.PassedIsExact: a file that is truncated and grows past the watermark between two polls, with the same inode,
  cannot be told from one that grew; the lemma asks that this did not happen.
- Emissions.EmittedTimes: is about a file that keeps its inode and only grows, between polls and between the calls of
  one poll, and about answers that are what the file held at their call; what range answers that are short do is
  `Delivery.ExactlyOnceIff`.
- Pipeline.OneChance: that an event is found only in texts that show a byte is asked of the detector.
- UndoRuns.RollbacksUndoChanges: legacy fixes that write several fields are not part of these runs; what their rollback
  does is `ExecutorTheorems.GpuFixRollbackRestoresIff`.
- MonitorRuns.HandledOnce: the report cooldown is remembered by one process only, so attempts are spaced within it.
