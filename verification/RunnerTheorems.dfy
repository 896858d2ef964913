/** What one recovery call can do, and what any run of calls can do. */
module RunnerTheorems {
  import opened Wrappers
  import opened ConfigTree
  import opened Semantics
  import opened Registry
  import opened Projects
  import opened Hosts
  import opened Cooldown
  import opened Gate
  import opened GateTheorems
  import opened Executor
  import opened ExecutorTheorems
  import opened Rollbacks
  import opened RemoteExecutor
  import opened Agreement
  import opened Approvals
  import opened Runner

  /**
   An execution is the outcome of a decision that ended in an allowed verdict; anything else leaves disk and registries
   alone.
   */
  lemma RecoveryCases(cfg: Setup, st: RunnerState, call: Call)
    ensures var (after, result) := Recovery(cfg, st, call);
      && result.executed == Decide(cfg, st, call).1.allowed
      && after.cooldown == Decide(cfg, st, call).0
      && (result.executed ==> (after.disk, result) == Execute(cfg, st.disk, call, Decide(cfg, st, call).1))
      && (!result.executed ==> after.disk == st.disk && !result.applySuccess && !result.rollbackExecuted)
  {
  }

  /** The conditions of an execution, on the state and the call. */
  predicate MayExecute(cfg: Setup, st: RunnerState, call: Call) {
    var keys := KeysOf(call.event, cfg.project);
    var limits := LimitsOf(cfg.project);
    && Eligible(cfg.reg, cfg.site.host, cfg.project, call.event)
    && !cfg.project.policy.dryRun
    && HasActionableEdit(cfg.reg, cfg.site.host, cfg.project, FixForEvent(cfg.reg, call.event.eventType), call.view)
    && Check(st.cooldown, limits, keys, call.checkedAt).allowed
    && Check(st.cooldown, limits, keys, call.reserveAt).allowed
    && (if call.approvalId == "" then !cfg.project.policy.requireHumanApproval
        else ApprovalProblem(cfg, st.log, call.event, FreshGate(cfg, st.cooldown, call), call.approvalId) == None)
  }

  /** A call executes if and only if all the conditions hold. */
  lemma ExecutesIff(cfg: Setup, st: RunnerState, call: Call)
    ensures Recovery(cfg, st, call).1.executed <==> MayExecute(cfg, st, call)
  {
    RecoveryCases(cfg, st, call);
    GateAllowsIff(cfg.reg, cfg.site.host, cfg.project, call.event,
                  Check(st.cooldown, LimitsOf(cfg.project), KeysOf(call.event, cfg.project), call.checkedAt),
                      call.view);
    DecidesIff(cfg, st.cooldown, st.log, call, FreshGate(cfg, st.cooldown, call));
  }

  lemma DecidesIff(cfg: Setup, cooldown: Registries, log: Log, call: Call, verdict: GateResult)
    ensures DecideFrom(cfg, cooldown, log, call, verdict).1.allowed <==>
      && verdict.allowed
      && Check(cooldown, LimitsOf(cfg.project), KeysOf(call.event, cfg.project), call.reserveAt).allowed
      && (if call.approvalId == "" then !cfg.project.policy.requireHumanApproval
          else ApprovalProblem(cfg, log, call.event, verdict, call.approvalId) == None)
  {
  }

  /** In dry-run no call changes a file, a record or a reservation. */
  lemma DryRunChangesNothing(cfg: Setup, st: RunnerState, call: Call)
    requires cfg.project.policy.dryRun
    ensures var (after, result) := Recovery(cfg, st, call);
      !result.executed && after.disk == st.disk && after.cooldown == st.cooldown
  {
    ExecutesIff(cfg, st, call);
    RecoveryCases(cfg, st, call);
    FreshGateIsAuthorized(cfg, st.cooldown, call);
    DecideFromKeeps(cfg, st.cooldown, st.log, call, FreshGate(cfg, st.cooldown, call));
  }

  /**
   An approval only narrows: a call made with one executes only what the gate, asked again, allows by itself,
   and only when the request's newest record is an approval for this fingerprint, event type and fix. Where a
   person must approve, a call without an approval never executes.
   */
  lemma ApprovalOnlyNarrows(cfg: Setup, st: RunnerState, call: Call)
    requires Recovery(cfg, st, call).1.executed
    ensures FreshGate(cfg, st.cooldown, call).allowed
    ensures cfg.project.policy.requireHumanApproval ==> call.approvalId != ""
    ensures call.approvalId != "" ==>
      && cfg.hasStore
      && CurrentStatus(st.log, call.approvalId) == Some(Approved)
      && FindRequest(st.log, call.approvalId).Some?
      && var request := FindRequest(st.log, call.approvalId).value;
         request.approvable && request.fingerprint == call.event.fingerprint
             && request.eventType == call.event.eventType
         && request.selectedFix == FixForEvent(cfg.reg, call.event.eventType)
  {
    RecoveryCases(cfg, st, call);
    FreshGateIsAuthorized(cfg, st.cooldown, call);
    DecideFromKeeps(cfg, st.cooldown, st.log, call, FreshGate(cfg, st.cooldown, call));
  }

  /**
   Ambiguous evidence can be approved by a person, but it is never executed while it stays ambiguous, whatever
   the approval log says.
   */
  lemma AmbiguousNeverExecutes(cfg: Setup, st: RunnerState, call: Call)
    requires Ambiguous(cfg.reg, cfg.site.host, call.event, FixForEvent(cfg.reg, call.event.eventType))
    ensures !Recovery(cfg, st, call).1.executed
  {
    ExecutesIff(cfg, st, call);
  }

  // ----- what an execution does to the files -----

  /** The application that a call makes, once it executes. */
  function OpOf(cfg: Setup, disk: Disk, call: Call): Op
    requires SpecByFix(cfg.reg.safe, FixForEvent(cfg.reg, call.event.eventType)).Some?
  {
    var spec := SpecByFix(cfg.reg.safe, FixForEvent(cfg.reg, call.event.eventType)).value;
    Op(spec, call.probe,
       call.stamps(if cfg.project.isRemote then WriteMoment(cfg.site, disk.files, spec, call.probe) else 0))
  }

  lemma ApplyOnRegistryFix(cfg: Setup, disk: Disk, fixId: string, spec: SafeSpec, probe: Probe, stamps: Stamps)
    requires SpecByFix(cfg.reg.safe, fixId) == Some(spec) && TrimmedIds(cfg.reg.safe)
    ensures var stamp := stamps(if cfg.project.isRemote then WriteMoment(cfg.site, disk.files, spec, probe) else 0);
      ApplyOn(cfg, disk, fixId, probe, stamps) == Applied(cfg.site, disk, spec, probe, stamp)
  {
    assert Strip(fixId) == fixId != "";
  }

  lemma AppliedIsStep(site: Site, disk: Disk, op: Op)
    ensures Applied(site, disk, op.spec, op.probe, op.stamp) ==
      (Step(site, disk, op), ApplySpec(site, disk.files, op.spec, op.probe, op.stamp).1)
    ensures Pushes(site, disk, op) ==> Applied(site, disk, op.spec, op.probe, op.stamp).1
  {
  }

  /** The final disk of an execution: one application of the registry's fix, then `n` rollbacks. */
  lemma ExecutionOutcome(cfg: Setup, st: RunnerState, call: Call)
    requires TrimmedIds(cfg.reg.safe) && Recovery(cfg, st, call).1.executed
    ensures SpecByFix(cfg.reg.safe, FixForEvent(cfg.reg, call.event.eventType)).Some?
    ensures cfg.project.policy.rollbackOnFailure
    ensures var (after, result) := Recovery(cfg, st, call);
      var op := OpOf(cfg, st.disk, call);
      var n := RollbackCount(cfg, call, result.applySuccess, result.rerunSuccess);
      && result.applySuccess == ApplySpec(cfg.site, st.disk.files, op.spec, op.probe, op.stamp).1
      && result.rerunSuccess == RerunOk(cfg, call, result.applySuccess)
      && (after.disk, result.rollbackSuccess) == RollBackTimes(cfg.site, Step(cfg.site, st.disk, op), n)
      && result.rollbackExecuted == (n > 0)
      && (Pushes(cfg.site, st.disk, op) ==> result.applySuccess)
  {
    RecoveryCases(cfg, st, call);
    ExecutesIff(cfg, st, call);
    DecidedGateIsAuthorized(cfg, st, call);
    var fixId := FixForEvent(cfg.reg, call.event.eventType);
    var op := OpOf(cfg, st.disk, call);
    ApplyOnRegistryFix(cfg, st.disk, fixId, op.spec, call.probe, call.stamps);
    AppliedIsStep(cfg.site, st.disk, op);
  }

  /**
   Whatever happens, a call never reports recovery together with a rollback, and it reports failure only after one.
   */
  lemma RecoveredOrRolledBack(cfg: Setup, st: RunnerState, call: Call)
    requires TrimmedIds(cfg.reg.safe)
    ensures var result := Recovery(cfg, st, call).1;
      && !(result.Recovered() && result.rollbackExecuted)
      && (result.executed ==> (result.rollbackExecuted <==> result.applySuccess && !result.rerunSuccess))
      && (result.executed && result.applySuccess && !cfg.project.policy.rerunAfterApply ==> result.rollbackExecuted)
      && (result.rerunSuccess ==> cfg.project.policy.rerunAfterApply && call.rerun == RerunSucceeds)
      && (result.applySuccess && cfg.project.policy.rerunAfterApply && call.rerun == RerunSucceeds ==>
          result.rerunSuccess)
  {
    RecoveryCases(cfg, st, call);
    if Recovery(cfg, st, call).1.executed {
      ExecutionOutcome(cfg, st, call);
    }
  }

  /** What the apply finds is what the gate saw, on a project of this machine. */
  ghost predicate Stable(cfg: Setup, st: RunnerState, call: Call) {
    && !cfg.project.isRemote && cfg.site.projectDir == cfg.project.EffectiveDir()
    && call.view.files == st.disk.files && call.view.probe == call.probe
  }

  function ConfigOf(cfg: Setup, disk: Disk, call: Call): string
    requires SpecByFix(cfg.reg.safe, FixForEvent(cfg.reg, call.event.eventType)).Some?
  {
    ConfigPath(cfg.site, OpOf(cfg, disk, call).spec.configPath)
  }

  /** The disk with nothing but one more backup on it. */
  function Restored(cfg: Setup, disk: Disk, call: Call): Disk
    requires SpecByFix(cfg.reg.safe, FixForEvent(cfg.reg, call.event.eventType)).Some?
    requires ConfigOf(cfg, disk, call) in disk.files
  {
    Disk(disk.files[Backup(cfg.site, OpOf(cfg, disk, call)) := disk.files[ConfigOf(cfg, disk, call)]], disk.records)
  }

  lemma StableExecutionWritesIff(cfg: Setup, st: RunnerState, call: Call)
    requires TrimmedIds(cfg.reg.safe) && Stable(cfg, st, call) && Recovery(cfg, st, call).1.executed
    ensures SpecByFix(cfg.reg.safe, FixForEvent(cfg.reg, call.event.eventType)).Some?
    ensures Pushes(cfg.site, st.disk, OpOf(cfg, st.disk, call)) <==> IsJsonPath(ConfigOf(cfg, st.disk, call))
    ensures !IsJsonPath(ConfigOf(cfg, st.disk, call)) ==> !Recovery(cfg, st, call).1.applySuccess
  {
    ExecutesIff(cfg, st, call);
    ExecutionOutcome(cfg, st, call);
    var op := OpOf(cfg, st.disk, call);
    PrecheckPredictsWrite(cfg.site, cfg.site.host, cfg.project, op.spec, call.view, op.stamp);
    StableReads(cfg.site.host, cfg.project, op.spec, call.view);
  }

  lemma StableReads(host: Host, project: Project, spec: SafeSpec, view: View)
    requires !project.isRemote && CountActionable(ReadConfig(host, project, spec, view).planned) > 0
    ensures ReadConfig(host, project, spec, view).status == ReadOk
  {
  }

  /**
   A stable call that executes ends in one of three ways. The configuration is no `.json` file: the apply fails
   and nothing changes. The rerun succeeds: recovered, no rollback, and the disk is that of one application. The
   rerun fails, raises or is switched off: one rollback that succeeds, and every file and record is as before,
   one backup apart. The recording of the result must not raise in the last case.
   */
  lemma StableRecoveryOutcome(cfg: Setup, st: RunnerState, call: Call)
    requires TrimmedIds(cfg.reg.safe) && Stable(cfg, st, call)
    requires var r := Recovery(cfg, st, call).1; r.executed && (RecordingRaises(cfg, call) ==> r.rerunSuccess)
    ensures SpecByFix(cfg.reg.safe, FixForEvent(cfg.reg, call.event.eventType)).Some?
    ensures var (after, result) := Recovery(cfg, st, call);
      if !IsJsonPath(ConfigOf(cfg, st.disk, call)) then
        !result.applySuccess && !result.rollbackExecuted && after.disk == st.disk
      else if result.rerunSuccess then
        result.Recovered() && !result.rollbackExecuted
            && after.disk == Step(cfg.site, st.disk, OpOf(cfg, st.disk, call))
      else
        && result.applySuccess && result.rollbackExecuted && result.rollbackSuccess
        && ConfigOf(cfg, st.disk, call) in st.disk.files && after.disk == Restored(cfg, st.disk, call)
  {
    StableExecutionWritesIff(cfg, st, call);
    ExecutionOutcome(cfg, st, call);
    var op := OpOf(cfg, st.disk, call);
    if IsJsonPath(ConfigOf(cfg, st.disk, call)) {
      RollbackUndoesApply(cfg.site, st.disk, op);
    } else {
      NoWriteNoChange(cfg.site, st.disk, op);
    }
  }

  /** A stable call that executes on a JSON file, and records its result, recovers exactly when the rerun succeeds. */
  lemma StableCallEnds(cfg: Setup, st: RunnerState, call: Call)
    requires TrimmedIds(cfg.reg.safe) && Stable(cfg, st, call) && Recovery(cfg, st, call).1.executed
        && !call.reportRaises
    ensures SpecByFix(cfg.reg.safe, FixForEvent(cfg.reg, call.event.eventType)).Some?
    ensures IsJsonPath(ConfigOf(cfg, st.disk, call)) && cfg.project.policy.rerunAfterApply ==>
      var result := Recovery(cfg, st, call).1;
      (result.Recovered() <==> call.rerun == RerunSucceeds)
          && (result.rollbackExecuted <==> call.rerun != RerunSucceeds)
  {
    StableRecoveryOutcome(cfg, st, call);
    RecoveredOrRolledBack(cfg, st, call);
  }

  // ----- when a rollback leaves more than the failed change undone -----

  function VerdictsOn(site: Site, disk: Disk, op: Op): seq<Executor.Verdict> {
    match ReadTree(site, disk.files, op.spec.configPath)
    case Some(data) => Verdicts(data, op.spec.candidates, op.probe)
    case None => []
  }

  /** Some candidate is to be written. */
  predicate FindsWritable(site: Site, disk: Disk, op: Op) {
    Writable in VerdictsOn(site, disk, op)
  }

  /** Nothing is to be written, and some candidate has its target already. */
  predicate FindsSafe(site: Site, disk: Disk, op: Op) {
    Writable !in VerdictsOn(site, disk, op) && AlreadySafe in VerdictsOn(site, disk, op)
  }

  /**
   An application writes exactly when it finds something to write, and succeeds without writing exactly on a no-op.
   */
  lemma ApplySucceedsIff(site: Site, disk: Disk, op: Op)
    ensures Pushes(site, disk, op) <==> FindsWritable(site, disk, op)
    ensures ApplySpec(site, disk.files, op.spec, op.probe, op.stamp).1 <==>
      FindsWritable(site, disk, op) || FindsSafe(site, disk, op)
  {
    var vs := VerdictsOn(site, disk, op);
    if ReadTree(site, disk.files, op.spec.configPath).Some? {
      var i := FirstWritable(vs);
      if i == |vs| {
        assert Writable !in vs;
      } else {
        assert vs[i] in vs;
      }
    }
  }

  /** The conditions under which a call rolls back, on the state and the call. */
  predicate RollsBack(cfg: Setup, st: RunnerState, call: Call) {
    && MayExecute(cfg, st, call)
    && SpecByFix(cfg.reg.safe, FixForEvent(cfg.reg, call.event.eventType)).Some?
    && (FindsWritable(cfg.site, st.disk, OpOf(cfg, st.disk, call))
        || FindsSafe(cfg.site, st.disk, OpOf(cfg, st.disk, call)))
    && !(cfg.project.policy.rerunAfterApply && call.rerun == RerunSucceeds)
  }

  /** A call rolls back if and only if it executes, its apply succeeds and no rerun confirms it. */
  lemma RollsBackIff(cfg: Setup, st: RunnerState, call: Call)
    requires TrimmedIds(cfg.reg.safe)
    ensures Recovery(cfg, st, call).1.rollbackExecuted <==> RollsBack(cfg, st, call)
  {
    ExecutesIff(cfg, st, call);
    RecoveryCases(cfg, st, call);
    if Recovery(cfg, st, call).1.executed {
      ExecutionOutcome(cfg, st, call);
      ApplySucceedsIff(cfg.site, st.disk, OpOf(cfg, st.disk, call));
    }
  }

  /** The disk a rollback should end with: as before, but for the backup of a change that was written. */
  function TargetOf(site: Site, disk: Disk, op: Op): Disk {
    var config := ConfigPath(site, op.spec.configPath);
    if FindsWritable(site, disk, op) && config in disk.files
    then Disk(disk.files[Backup(site, op) := disk.files[config]], disk.records) else disk
  }

  /** How many of `n` rollbacks after an application reach records that are older than it. */
  function StrayRollbacks(site: Site, disk: Disk, op: Op, n: nat): int {
    if FindsWritable(site, disk, op) then n - 1 else n
  }

  lemma AfterRollbacks(site: Site, disk: Disk, op: Op, n: nat)
    requires 1 <= n <= 2
    ensures 0 <= StrayRollbacks(site, disk, op, n) <= 2
    ensures RollBackTimes(site, Step(site, disk, op), n).0 ==
      RollBackTimes(site, TargetOf(site, disk, op), StrayRollbacks(site, disk, op, n)).0
  {
    ApplySucceedsIff(site, disk, op);
    if Pushes(site, disk, op) {
      RollbackUndoesApply(site, disk, op);
    } else {
      NoWriteNoChange(site, disk, op);
    }
  }

  /**
   Stray rollbacks do nothing exactly when there are none or a rollback would be idle, and take a record off when it
   can.
   */
  lemma StrayRollbacksIff(site: Site, target: Disk, stray: nat)
    requires Proper(target) && stray <= 2
    ensures var after := RollBackTimes(site, target, stray).0;
      && (after == target <==> stray == 0 || Idle(site, target))
      && (after.records != target.records <==> stray > 0 && CanRollBack(site, target))
  {
    RollbackIdleIff(site, target);
    TwoRollbacksIdleIff(site, target);
    RollbackSucceedsIff(site, target);
    var once := Rollback(site, target).0;
    RollbackPopsOnSuccessOnly(site, target);
    RollbackPopsOnSuccessOnly(site, once);
    if !CanRollBack(site, target) {
      FailedRollbackSettles(site, target);
    }
  }

  lemma RollbacksLeave(site: Site, disk: Disk, op: Op, n: nat)
    requires Proper(disk) && 1 <= n <= 2
    ensures var after, target := RollBackTimes(site, Step(site, disk, op), n).0, TargetOf(site, disk, op);
      var stray := StrayRollbacks(site, disk, op, n);
      && (after == target <==> stray == 0 || Idle(site, target))
      && (after.records != disk.records <==> stray > 0 && CanRollBack(site, target))
  {
    AfterRollbacks(site, disk, op, n);
    StrayRollbacksIff(site, TargetOf(site, disk, op), StrayRollbacks(site, disk, op, n));
  }

  function RollbacksIn(cfg: Setup, call: Call): nat {
    if RecordingRaises(cfg, call) then 2 else 1
  }

  lemma DiskAfterRollback(cfg: Setup, st: RunnerState, call: Call)
    requires TrimmedIds(cfg.reg.safe) && RollsBack(cfg, st, call)
    ensures var (after, result) := Recovery(cfg, st, call);
      && result.executed && result.applySuccess && !result.Recovered()
      && (after.disk, result.rollbackSuccess) ==
         RollBackTimes(cfg.site, Step(cfg.site, st.disk, OpOf(cfg, st.disk, call)), RollbacksIn(cfg, call))
  {
    ExecutesIff(cfg, st, call);
    RollsBackIff(cfg, st, call);
    RecoveredOrRolledBack(cfg, st, call);
    ExecutionOutcome(cfg, st, call);
  }

  /**
   A call that rolls back leaves every file and every record as it was, but for the backup of its own change, if and
   only if none of its rollbacks is a stray one, or a rollback of the older records would do nothing. It takes an
   older record off exactly when a stray rollback finds one that can be undone.
   */
  lemma RolledBackIff(cfg: Setup, st: RunnerState, call: Call)
    requires TrimmedIds(cfg.reg.safe) && Proper(st.disk) && RollsBack(cfg, st, call)
    ensures var op, after := OpOf(cfg, st.disk, call), Recovery(cfg, st, call).0.disk;
      var stray, target := StrayRollbacks(cfg.site, st.disk, op, RollbacksIn(cfg, call)),
          TargetOf(cfg.site, st.disk, op);
      && (after == target <==> stray == 0 || Idle(cfg.site, target))
      && (after.records != st.disk.records <==> stray > 0 && CanRollBack(cfg.site, target))
  {
    DiskAfterRollback(cfg, st, call);
    RollbacksLeave(cfg.site, st.disk, OpOf(cfg, st.disk, call), RollbacksIn(cfg, call));
  }

  /**
   When the change was written and did not help: everything is as before exactly when recording the result does not
   raise, or the second rollback that a raise causes would do nothing. If it can, it takes an older fix back.
   */
  lemma WrittenThenRolledBackIff(cfg: Setup, st: RunnerState, call: Call)
    requires TrimmedIds(cfg.reg.safe) && Proper(st.disk) && RollsBack(cfg, st, call)
    requires FindsWritable(cfg.site, st.disk, OpOf(cfg, st.disk, call))
    ensures var after, restored :=
        Recovery(cfg, st, call).0.disk, TargetOf(cfg.site, st.disk, OpOf(cfg, st.disk, call));
      && (after == restored <==> !RecordingRaises(cfg, call) || Idle(cfg.site, restored))
      && (after.records != st.disk.records <==> RecordingRaises(cfg, call) && CanRollBack(cfg.site, restored))
  {
    RolledBackIff(cfg, st, call);
  }

  /**
   When the apply found nothing left to write, which the gate rules out only for a stable call, the rollback goes to
   the newest older record, and a raise lets a second one follow: everything is as before exactly when a rollback
   would do nothing, and a record goes exactly when the newest one can be undone.
   */
  lemma NothingWrittenThenRolledBackIff(cfg: Setup, st: RunnerState, call: Call)
    requires TrimmedIds(cfg.reg.safe) && Proper(st.disk) && RollsBack(cfg, st, call)
    requires !FindsWritable(cfg.site, st.disk, OpOf(cfg, st.disk, call))
    ensures var after := Recovery(cfg, st, call).0.disk;
      && (after == st.disk <==> Idle(cfg.site, st.disk))
      && (after.records != st.disk.records <==> CanRollBack(cfg.site, st.disk))
  {
    RolledBackIff(cfg, st, call);
  }

  /** No call puts anything but proper records on the stack. */
  lemma RecoveryKeepsProper(cfg: Setup, st: RunnerState, call: Call)
    requires Proper(st.disk)
    ensures Proper(Recovery(cfg, st, call).0.disk)
  {
    RecoveryCases(cfg, st, call);
    if Recovery(cfg, st, call).1.executed {
      var gate := Decide(cfg, st, call).1;
      ApplyKeepsProper(cfg, st.disk, gate.selectedFix, call.probe, call.stamps);
      ExecuteKeepsProper(cfg, st.disk, call, gate);
    }
  }

  lemma ApplyKeepsProper(cfg: Setup, disk: Disk, fixId: string, probe: Probe, stamps: Stamps)
    requires Proper(disk)
    ensures Proper(ApplyOn(cfg, disk, fixId, probe, stamps).0)
  {
    if cfg.project.isRemote {
      match SpecByFix(cfg.reg.safe, Strip(fixId))
      case Some(spec) =>
        AppliedKeepsProper(cfg.site, disk, spec, probe, stamps(WriteMoment(cfg.site, disk.files, spec, probe)));
      case None =>
    } else {
      AppliedFixKeepsProper(cfg.site, Catalog(cfg.reg.safe, cfg.legacy), disk, fixId, probe, stamps);
    }
  }

  lemma ExecuteKeepsProper(cfg: Setup, disk: Disk, call: Call, gate: GateResult)
    requires Proper(ApplyOn(cfg, disk, gate.selectedFix, call.probe, call.stamps).0)
    ensures Proper(Execute(cfg, disk, call, gate).0)
  {
    var applied := ApplyOn(cfg, disk, gate.selectedFix, call.probe, call.stamps).0;
    RollbackKeepsProper(cfg.site, applied);
    RollbackKeepsProper(cfg.site, Rollback(cfg.site, applied).0);
  }
}
