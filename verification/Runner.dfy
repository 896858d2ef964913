/** The recovery runner: gate, approval, reservation, apply, rerun, rollback. */
module Runner {
  import opened Wrappers
  import opened ConfigTree
  import opened Semantics
  import opened Registry
  import opened Projects
  import opened Hosts
  import opened Policy
  import opened Cooldown
  import opened Gate
  import opened GateTheorems
  import opened Executor
  import opened RemoteExecutor
  import opened Approvals

  /** What stays fixed while a runner lives. Without persistent state there is no approval store. */
  datatype Setup = Setup(reg: Registry, legacy: LegacyTable, project: Project, site: Site, hasStore: bool)

  datatype RunnerState = RunnerState(cooldown: Registries, log: Log, disk: Disk)

  datatype Rerun = RerunSucceeds | RerunFails | RerunRaises

  /**
   One call of `recover` (with an empty approval id) or `recover_after_approval`, with everything it learns from
   outside: what the precheck sees, what the apply sees, three clock readings, the stamps of its backups, how the
   rerun ends, whether recording the result raises, and the id a new approval request would get.
   */
  datatype Call = Call(
    event: Event,
    approvalId: string,
    view: View,
    probe: Probe,
    checkedAt: real,
    reserveAt: real,
    stampAt: real,
    stamps: Stamps,
    rerun: Rerun,
    reportRaises: bool,
    newId: string)

  datatype Action = AutoRecover | EscalateToOperator | ReportOnly

  datatype Result = Result(
    gate: GateResult,
    action: Action,
    fixId: string,
    executed: bool,
    applySuccess: bool,
    rerunSuccess: bool,
    rollbackExecuted: bool,
    rollbackSuccess: bool)
  {
    predicate Recovered() {
      applySuccess && rerunSuccess
    }
  }

  datatype AuthorizationError =
    | AuditRequired | DryRunBlocks | NotAuthorized | SelectedFixMismatch | NotSafeLayer

  /** The check made right before a fix is applied; None means authorized. */
  function Authorization(gate: GateResult, fixId: string): Option<AuthorizationError> {
    if !gate.auditRequired then Some(AuditRequired)
    else if gate.dryRun then Some(DryRunBlocks)
    else if !gate.allowed || !gate.wouldExecute then Some(NotAuthorized)
    else if gate.selectedFix != fixId then Some(SelectedFixMismatch)
    else if gate.layer != SafeAutoRecover then Some(NotSafeLayer)
    else None
  }

  function Block(gate: GateResult, reason: GateReason, operatorRequired: bool): GateResult {
    gate.(allowed := false, wouldExecute := false, operatorRequired := operatorRequired, reason := reason)
  }

  /** Why an approval does not cover the gate's verdict; None when it does. */
  function ApprovalProblem(cfg: Setup, log: Log, event: Event, gate: GateResult, id: string): Option<GateReason> {
    if !cfg.hasStore then Some(ApprovalStoreUnavailable)
    else match FindRequest(log, id)
      case None => Some(ApprovalRequestNotFound)
      case Some(request) =>
        if CurrentStatus(log, id) != Some(Approved) then Some(ApprovalNotApproved)
        else if request.fingerprint != event.fingerprint then Some(ApprovalFingerprintMismatch)
        else if request.eventType != event.eventType then Some(ApprovalEventTypeMismatch)
        else if request.selectedFix != gate.selectedFix then Some(ApprovalFixMismatch)
        else if !request.approvable then Some(ApprovalNotApprovable)
        else None
  }

  function FreshGate(cfg: Setup, cooldown: Registries, call: Call): GateResult {
    EvaluateGate(cfg.reg, cfg.site.host, cfg.project, call.event,
                 Check(cooldown, LimitsOf(cfg.project), KeysOf(call.event, cfg.project), call.checkedAt), call.view)
  }

  /** The verdict after the approval requirements. */
  function ApprovedGate(cfg: Setup, log: Log, call: Call, verdict: GateResult): GateResult {
    if !verdict.allowed then verdict
    else if call.approvalId != "" then
      match ApprovalProblem(cfg, log, call.event, verdict, call.approvalId)
      case Some(reason) => Block(verdict, reason, true)
      case None => verdict
    else if cfg.project.policy.requireHumanApproval then Block(verdict, HumanApprovalRequired, true)
    else verdict
  }

  function ReserveFor(cfg: Setup, cooldown: Registries, call: Call): (Registries, CooldownResult) {
    Reserve(cooldown, LimitsOf(cfg.project), KeysOf(call.event, cfg.project), call.reserveAt, call.stampAt)
  }

  /** The cooldown registries and the final verdict, from a fresh evaluation of the gate. */
  function DecideFrom(cfg: Setup, cooldown: Registries, log: Log, call: Call, verdict: GateResult):
    (Registries, GateResult)
  {
    var gate := ApprovedGate(cfg, log, call, verdict);
    if !gate.allowed then (cooldown, gate)
    else
      var (reserved, reservation) := ReserveFor(cfg, cooldown, call);
      if reservation.allowed then (reserved, gate.(cooldown := reservation))
      else
        (reserved, gate.(cooldown := reservation, allowed := false, wouldExecute := false,
                         reason := CooldownActive(reservation.blocked)))
  }

  function Decide(cfg: Setup, st: RunnerState, call: Call): (Registries, GateResult) {
    DecideFrom(cfg, st.cooldown, st.log, call, FreshGate(cfg, st.cooldown, call))
  }

  /** Applying a fix on the project's machine. */
  function ApplyOn(cfg: Setup, disk: Disk, fixId: string, probe: Probe, stamps: Stamps): (Disk, bool) {
    if cfg.project.isRemote then
      match SpecByFix(cfg.reg.safe, Strip(fixId))
      case Some(spec) => Applied(cfg.site, disk, spec, probe, stamps(WriteMoment(cfg.site, disk.files, spec, probe)))
      case None => (disk, false)
    else AppliedFix(cfg.site, Catalog(cfg.reg.safe, cfg.legacy), disk, fixId, probe, stamps)
  }

  /** Recording the result raises inside the guarded part of the call. After a rerun that raised, it is outside. */
  predicate RecordingRaises(cfg: Setup, call: Call) {
    call.reportRaises && !(cfg.project.policy.rerunAfterApply && call.rerun == RerunRaises)
  }

  /** How often a call rolls back: once when a live change did not help, and again when recording that raises. */
  function RollbackCount(cfg: Setup, call: Call, applyOk: bool, rerunOk: bool): nat {
    if !applyOk || rerunOk || !cfg.project.policy.rollbackOnFailure then 0
    else if RecordingRaises(cfg, call) then 2
    else 1
  }

  function RerunOk(cfg: Setup, call: Call, applyOk: bool): bool {
    applyOk && cfg.project.policy.rerunAfterApply && call.rerun == RerunSucceeds
  }

  /** `n` rollbacks in a row, with the outcome of the last one. */
  function RollBackTimes(site: Site, disk: Disk, n: nat): (Disk, bool)
    requires n <= 2
  {
    if n == 0 then (disk, false)
    else
      var (d1, ok1) := Rollback(site, disk);
      if n == 1 then (d1, ok1) else Rollback(site, d1)
  }

  function Execute(cfg: Setup, disk: Disk, call: Call, gate: GateResult): (Disk, Result) {
    var (applied, applyOk) := ApplyOn(cfg, disk, gate.selectedFix, call.probe, call.stamps);
    var rerunOk := RerunOk(cfg, call, applyOk);
    var n := RollbackCount(cfg, call, applyOk, rerunOk);
    var (final, rollbackOk) := RollBackTimes(cfg.site, applied, n);
    (final, Result(gate, AutoRecover, gate.selectedFix, true, applyOk, rerunOk, n > 0, rollbackOk))
  }

  function NotExecuted(gate: GateResult): Result {
    Result(gate, if gate.operatorRequired then EscalateToOperator else ReportOnly, gate.selectedFix, false,
           false, false, false, false)
  }

  function LogAfter(cfg: Setup, log: Log, call: Call, gate: GateResult): Log {
    if call.approvalId == "" && cfg.hasStore && gate.operatorRequired
    then log + [RequestFor(cfg.reg, call.event, gate, call.newId)]
    else log
  }

  function Recovery(cfg: Setup, st: RunnerState, call: Call): (RunnerState, Result) {
    var (cooldown, gate) := Decide(cfg, st, call);
    var log := LogAfter(cfg, st.log, call, gate);
    if !gate.allowed then (RunnerState(cooldown, log, st.disk), NotExecuted(gate))
    else
      var (disk, result) := Execute(cfg, st.disk, call, gate);
      (RunnerState(cooldown, log, disk), result)
  }

  lemma FreshGateIsAuthorized(cfg: Setup, cooldown: Registries, call: Call)
    ensures var verdict := FreshGate(cfg, cooldown, call);
      && verdict.wouldExecute == verdict.allowed
      && (verdict.allowed ==>
          && Authorization(verdict, verdict.selectedFix) == None && !verdict.operatorRequired
          && verdict.selectedFix == FixForEvent(cfg.reg, call.event.eventType))
  {
    if FreshGate(cfg, cooldown, call).allowed {
      AllowedGateIsAuthorized(cfg.reg, cfg.site.host, cfg.project, call.event,
        Check(cooldown, LimitsOf(cfg.project), KeysOf(call.event, cfg.project), call.checkedAt), call.view);
    }
  }

  lemma ApprovedGateKeeps(cfg: Setup, log: Log, call: Call, verdict: GateResult)
    requires verdict.wouldExecute == verdict.allowed
    ensures var gate := ApprovedGate(cfg, log, call, verdict);
      && (gate.allowed ==>
          && gate == verdict
          && (call.approvalId != "" ==> ApprovalProblem(cfg, log, call.event, verdict, call.approvalId) == None)
          && (call.approvalId == "" ==> !cfg.project.policy.requireHumanApproval))
      && gate.wouldExecute == gate.allowed
  {
  }

  lemma DecideFromKeeps(cfg: Setup, cooldown: Registries, log: Log, call: Call, verdict: GateResult)
    requires verdict.wouldExecute == verdict.allowed
    ensures var (after, gate) := DecideFrom(cfg, cooldown, log, call, verdict);
      && (gate.allowed ==>
          && ApprovedGate(cfg, log, call, verdict) == verdict && verdict.allowed
          && gate == verdict.(cooldown := ReserveFor(cfg, cooldown, call).1)
          && ReserveFor(cfg, cooldown, call) == (after, gate.cooldown) && gate.cooldown.reserved
          && (call.approvalId != "" ==> ApprovalProblem(cfg, log, call.event, verdict, call.approvalId) == None)
          && (call.approvalId == "" ==> !cfg.project.policy.requireHumanApproval))
      && (!gate.allowed ==> after == cooldown && !gate.wouldExecute)
  {
    ApprovedGateKeeps(cfg, log, call, verdict);
  }

  /** Whatever the verdict was based on, only an authorized one survives to the end of the decision. */
  lemma DecidedGateIsAuthorized(cfg: Setup, st: RunnerState, call: Call)
    requires Decide(cfg, st, call).1.allowed
    ensures var gate := Decide(cfg, st, call).1;
      && Authorization(gate, gate.selectedFix) == None
      && gate.selectedFix == FixForEvent(cfg.reg, call.event.eventType)
  {
    FreshGateIsAuthorized(cfg, st.cooldown, call);
    DecideFromKeeps(cfg, st.cooldown, st.log, call, FreshGate(cfg, st.cooldown, call));
  }

  class AutoRecoveryRunner {
    const cfg: Setup
    const tracker: CooldownTracker
    const store: ApprovalStore
    const executor: SafeApplyExecutor
    const remoteExecutor: RemoteSafeApplyExecutor

    constructor (cfg: Setup, tracker: CooldownTracker, store: ApprovalStore, executor: SafeApplyExecutor,
                 remoteExecutor: RemoteSafeApplyExecutor)
      requires tracker.limits == LimitsOf(cfg.project) && store.reg == cfg.reg
      requires executor.site == cfg.site && executor.catalog == Catalog(cfg.reg.safe, cfg.legacy)
          && remoteExecutor.site == cfg.site
      ensures this.cfg == cfg && Valid()
      ensures this.tracker == tracker && this.store == store
      ensures this.executor == executor && this.remoteExecutor == remoteExecutor
    {
      this.cfg, this.tracker, this.store, this.executor, this.remoteExecutor :=
          cfg, tracker, store, executor, remoteExecutor;
    }

    ghost predicate Valid() {
      && tracker.limits == LimitsOf(cfg.project)
      && store.reg == cfg.reg
      && executor.site == cfg.site && executor.catalog == Catalog(cfg.reg.safe, cfg.legacy)
      && remoteExecutor.site == cfg.site
    }

    function State(): RunnerState
      reads tracker, store, executor, remoteExecutor
    {
      RunnerState(tracker.State(), store.log, if cfg.project.isRemote then remoteExecutor.State() else executor.State())
    }

    /** Evaluate the gate without reserving anything. */
    method IsAutoRecoverCandidate(event: Event, view: View, now: real) returns (candidate: bool)
      requires Valid()
      ensures candidate == IsRecoverCandidate(
        EvaluateGate(cfg.reg, cfg.site.host, cfg.project, event,
                     Check(tracker.State(), LimitsOf(cfg.project), KeysOf(event, cfg.project), now), view))
    {
      var cooldown := tracker.CheckNow(KeysOf(event, cfg.project), now);
      var gate := EvaluateGate(cfg.reg, cfg.site.host, cfg.project, event, cooldown, view);
      if AmbiguousEvidence in gate.precheck.reasons {
        return false;
      }
      return gate.IsCandidate() && gate.precheck.passed;
    }

    method ValidateApprovalForGate(event: Event, gate: GateResult, id: string) returns (problem: Option<GateReason>)
      requires Valid()
      ensures problem == ApprovalProblem(cfg, store.log, event, gate, id)
    {
      if !cfg.hasStore {
        return Some(ApprovalStoreUnavailable);
      }
      var request := store.GetRequest(id);
      if request.None? {
        return Some(ApprovalRequestNotFound);
      }
      var latest := store.LatestRecord(id);
      if latest.None? || latest.value.status != Approved {
        return Some(ApprovalNotApproved);
      }
      if request.value.fingerprint != event.fingerprint {
        return Some(ApprovalFingerprintMismatch);
      }
      if request.value.eventType != event.eventType {
        return Some(ApprovalEventTypeMismatch);
      }
      if request.value.selectedFix != gate.selectedFix {
        return Some(ApprovalFixMismatch);
      }
      if !request.value.approvable {
        return Some(ApprovalNotApprovable);
      }
      return None;
    }

    /** Gate, approval and reservation. */
    method DecideCall(call: Call) returns (gate: GateResult)
      requires Valid()
      modifies tracker
      ensures (tracker.State(), gate) == Decide(cfg, old(State()), call)
    {
      var keys := KeysOf(call.event, cfg.project);
      var cooldown := tracker.CheckNow(keys, call.checkedAt);
      gate := EvaluateGate(cfg.reg, cfg.site.host, cfg.project, call.event, cooldown, call.view);
      if gate.allowed {
        if call.approvalId != "" {
          var problem := ValidateApprovalForGate(call.event, gate, call.approvalId);
          if problem.Some? {
            gate := Block(gate, problem.value, true);
          }
        } else if cfg.project.policy.requireHumanApproval {
          gate := Block(gate, HumanApprovalRequired, true);
        }
        if gate.allowed {
          var reservation := tracker.ReserveNow(keys, call.reserveAt, call.stampAt);
          gate := gate.(cooldown := reservation);
          if !reservation.allowed {
            gate := gate.(allowed := false, wouldExecute := false, reason := CooldownActive(reservation.blocked));
          }
        }
      }
    }

    method ApplyFix(fixId: string, probe: Probe, stamps: Stamps) returns (success: bool)
      requires Valid()
      modifies executor, remoteExecutor
      ensures (State().disk, success) == ApplyOn(cfg, old(State()).disk, fixId, probe, stamps)
    {
      if cfg.project.isRemote {
        match SpecByFix(cfg.reg.safe, Strip(fixId))
        case Some(spec) =>
          success := remoteExecutor.ApplyFirstExistingRemoteField(spec, probe, stamps);
        case None =>
          success := false;
      } else {
        var r := executor.Apply(fixId, probe, stamps);
        success := r.success;
      }
    }

    /** Roll back unless the apply failed or the rerun succeeded. It does not ask whether it already ran. */
    method RollbackIfNeeded(before: Result) returns (result: Result)
      requires Valid()
      modifies executor, remoteExecutor
      ensures if !before.applySuccess || before.rerunSuccess then
          result == before && State().disk == old(State()).disk
        else
          && result == before.(rollbackExecuted := true, rollbackSuccess := result.rollbackSuccess)
          && (State().disk, result.rollbackSuccess) == Rollback(cfg.site, old(State()).disk)
    {
      result := before;
      if !result.applySuccess {
        return;
      }
      if result.rerunSuccess {
        return;
      }
      var ok;
      if cfg.project.isRemote {
        ok := remoteExecutor.RollbackLatest();
      } else {
        ok := executor.RollbackLatest();
      }
      result := result.(rollbackExecuted := true, rollbackSuccess := ok);
    }

    /** Apply, rerun, and roll back when the rerun did not help. */
    method ExecuteCall(call: Call, gate: GateResult) returns (result: Result)
      requires Valid()
      requires Authorization(gate, gate.selectedFix) == None
      modifies executor, remoteExecutor
      ensures (State().disk, result) == Execute(cfg, old(State()).disk, call, gate)
    {
      result := Result(gate, AutoRecover, gate.selectedFix, true, false, false, false, false);
      var success := ApplyFix(result.fixId, call.probe, call.stamps);
      result := result.(applySuccess := success);
      var raised := false;
      if success && cfg.project.policy.rerunAfterApply {
        if call.rerun == RerunRaises {
          raised := true;
        } else {
          result := result.(rerunSuccess := call.rerun == RerunSucceeds);
        }
      }
      if !raised {
        if result.applySuccess && !result.rerunSuccess && cfg.project.policy.rollbackOnFailure {
          result := RollbackIfNeeded(result);
        }
        raised := call.reportRaises;
      }
      if raised && cfg.project.policy.rollbackOnFailure {
        result := RollbackIfNeeded(result);
      }
    }

    method Recover(call: Call) returns (result: Result)
      requires Valid()
      modifies tracker, store, executor, remoteExecutor
      ensures (State(), result) == Recovery(cfg, old(State()), call)
      ensures result.executed ==> Authorization(result.gate, result.fixId) == None
    {
      ghost var before := State();
      var gate := DecideCall(call);
      if call.approvalId == "" && cfg.hasStore && gate.operatorRequired {
        var _ := store.CreateRequestFromGate(call.event, gate, call.newId);
      }
      if !gate.allowed {
        return NotExecuted(gate);
      }
      DecidedGateIsAuthorized(cfg, before, call);  // so the check before the apply never raises
      result := ExecuteCall(call, gate);
    }
  }
}
