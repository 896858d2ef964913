/** What a recovery call reports of itself: executed, escalated to a person, or reported only. */
module RunnerActions {
  import opened Wrappers
  import opened Registry
  import opened Projects
  import opened Hosts
  import opened Policy
  import opened Cooldown
  import opened Gate
  import opened GateTheorems
  import opened GateVerdicts
  import opened Semantics
  import opened Executor
  import opened Approvals
  import opened Runner
  import opened RunnerTheorems

  /** The policy itself calls for a person: it is not in force, or it refuses the event and escalates it. */
  predicate PolicyEscalates(reg: Registry, project: Project, event: Event) {
    var fixId := FixForEvent(reg, event.eventType);
    || !InForce(reg, project)
    || MatchesForbidden(fixId, reg.forbidden)
    || (DomainFor(reg, event.eventType).Some?
        && DomainFor(reg, event.eventType).value.layer != DiagnoseOnly && !GrantsFix(reg, project, event))
  }

  /** The verdict of the gate calls for a person exactly if the policy does, or a granted event is ambiguous. */
  lemma VerdictEscalatesIff(reg: Registry, host: Host, project: Project, event: Event, cooldown: CooldownResult,
                            view: View)
    ensures EvaluateGate(reg, host, project, event, cooldown, view).operatorRequired <==>
      || PolicyEscalates(reg, project, event)
      || (GrantsFix(reg, project, event) && Ambiguous(reg, host, event, FixForEvent(reg, event.eventType)))
  {
    if !InForce(reg, project) {
      WithoutPolicy(reg, host, project, event, cooldown, view);
    } else if MatchesForbidden(FixForEvent(reg, event.eventType), reg.forbidden) {
      ForbiddenFix(reg, host, project, event, cooldown, view);
    } else if DomainFor(reg, event.eventType).None? {
      UnknownEvent(reg, host, project, event, cooldown, view);
    } else if GrantsFix(reg, project, event) {
      GrantedVerdict(reg, host, project, event, cooldown, view);
    } else {
      RefusedEscalates(reg, host, project, event, cooldown, view);
    }
  }

  lemma RefusedEscalates(reg: Registry, host: Host, project: Project, event: Event, cooldown: CooldownResult,
                         view: View)
    requires InForce(reg, project) && !MatchesForbidden(FixForEvent(reg, event.eventType), reg.forbidden)
    requires DomainFor(reg, event.eventType).Some? && !GrantsFix(reg, project, event)
    ensures EvaluateGate(reg, host, project, event, cooldown, view).operatorRequired <==>
      DomainFor(reg, event.eventType).value.layer != DiagnoseOnly
  {
    match DomainFor(reg, event.eventType).value.layer
    case DiagnoseOnly => DiagnosedEvent(reg, host, project, event, cooldown, view);
    case SafeAutoRecover => UngrantedEvent(reg, host, project, event, cooldown, view);
    case _ => ManualEvent(reg, host, project, event, cooldown, view);
  }

  /** The gate would let the call through, but a person must approve, or the approval named does not fit. */
  predicate LacksApproval(cfg: Setup, st: RunnerState, call: Call) {
    && FreshGate(cfg, st.cooldown, call).allowed
    && (if call.approvalId == "" then cfg.project.policy.requireHumanApproval
        else ApprovalProblem(cfg, st.log, call.event, FreshGate(cfg, st.cooldown, call), call.approvalId) != None)
  }

  lemma DecidedEscalatesIff(cfg: Setup, cooldown: Registries, log: Log, call: Call, verdict: GateResult)
    requires verdict.allowed ==> !verdict.operatorRequired
    ensures DecideFrom(cfg, cooldown, log, call, verdict).1.operatorRequired <==>
      || verdict.operatorRequired
      || (verdict.allowed
          && if call.approvalId == "" then cfg.project.policy.requireHumanApproval
             else ApprovalProblem(cfg, log, call.event, verdict, call.approvalId) != None)
  {
  }

  lemma ActionOfDecision(cfg: Setup, st: RunnerState, call: Call)
    ensures var result := Recovery(cfg, st, call).1;
      result.action == if result.executed then AutoRecover
                       else if Decide(cfg, st, call).1.operatorRequired then EscalateToOperator else ReportOnly
  {
  }

  /**
   A call reports recovery exactly if it executed. It reports an escalation exactly if the policy calls for a person,
   if the evidence of a granted event is ambiguous, or if an approval is lacking. Otherwise it only reports.
   */
  lemma ActionIff(cfg: Setup, st: RunnerState, call: Call)
    ensures var result := Recovery(cfg, st, call).1;
      && (result.action == AutoRecover <==> result.executed)
      && (result.action == EscalateToOperator <==>
          || PolicyEscalates(cfg.reg, cfg.project, call.event)
          || (GrantsFix(cfg.reg, cfg.project, call.event)
              && Ambiguous(cfg.reg, cfg.site.host, call.event, FixForEvent(cfg.reg, call.event.eventType)))
          || LacksApproval(cfg, st, call))
  {
    var verdict := FreshGate(cfg, st.cooldown, call);
    ActionOfDecision(cfg, st, call);
    VerdictEscalatesIff(cfg.reg, cfg.site.host, cfg.project, call.event,
                        Check(st.cooldown, LimitsOf(cfg.project), KeysOf(call.event, cfg.project), call.checkedAt),
                        call.view);
    FreshGateIsAuthorized(cfg, st.cooldown, call);
    DecidedEscalatesIff(cfg, st.cooldown, st.log, call, verdict);
    ExecutedNeedsNobody(cfg, st, call);
  }

  lemma ExecutedNeedsNobody(cfg: Setup, st: RunnerState, call: Call)
    ensures Recovery(cfg, st, call).1.executed ==> !Decide(cfg, st, call).1.operatorRequired
  {
    var verdict := FreshGate(cfg, st.cooldown, call);
    FreshGateIsAuthorized(cfg, st.cooldown, call);
    DecideFromKeeps(cfg, st.cooldown, st.log, call, verdict);
  }

  /**
   Nobody is called for an event that is diagnosed or has no domain, for a granted dry run, or for a granted event in
   cooldown, as long as the evidence is clear.
   */
  lemma ReportsOnly(cfg: Setup, st: RunnerState, call: Call)
    requires InForce(cfg.reg, cfg.project)
    requires !MatchesForbidden(FixForEvent(cfg.reg, call.event.eventType), cfg.reg.forbidden)
    requires
      || DomainFor(cfg.reg, call.event.eventType).None?
      || DomainFor(cfg.reg, call.event.eventType).value.layer == DiagnoseOnly
      || (GrantsFix(cfg.reg, cfg.project, call.event)
          && !Ambiguous(cfg.reg, cfg.site.host, call.event, FixForEvent(cfg.reg, call.event.eventType))
          && (cfg.project.policy.dryRun
              || !Check(st.cooldown, LimitsOf(cfg.project), KeysOf(call.event, cfg.project), call.checkedAt).allowed))
    ensures Recovery(cfg, st, call).1.action == ReportOnly
  {
    ActionIff(cfg, st, call);
    ExecutesIff(cfg, st, call);
    GateAllowsIff(cfg.reg, cfg.site.host, cfg.project, call.event,
                  Check(st.cooldown, LimitsOf(cfg.project), KeysOf(call.event, cfg.project), call.checkedAt),
                  call.view);
  }

  // ----- why a call is refused -----

  /** A verdict is authorized exactly if it is audited, live, allowed, of the fix named and of the safe layer. */
  lemma AuthorizationIff(gate: GateResult, fixId: string)
    ensures Authorization(gate, fixId) == None <==>
      && gate.auditRequired && !gate.dryRun && gate.allowed && gate.wouldExecute && gate.selectedFix == fixId
      && gate.layer == SafeAutoRecover
    ensures Authorization(gate, fixId) == Some(AuditRequired) <==> !gate.auditRequired
    ensures Authorization(gate, fixId) == Some(DryRunBlocks) <==> gate.auditRequired && gate.dryRun
    ensures Authorization(gate, fixId) == Some(NotAuthorized) <==>
      gate.auditRequired && !gate.dryRun && !(gate.allowed && gate.wouldExecute)
    ensures Authorization(gate, fixId) == Some(SelectedFixMismatch) <==>
      gate.auditRequired && !gate.dryRun && gate.allowed && gate.wouldExecute && gate.selectedFix != fixId
  {
  }

  /**
   An approval covers a verdict exactly if there is a store with an approvable request for this fingerprint, event type
   and fix, whose newest record is an approval. Of what does not fit the first thing is named.
   */
  lemma ApprovalProblemIff(cfg: Setup, log: Log, event: Event, gate: GateResult, id: string)
    ensures var problem, request := ApprovalProblem(cfg, log, event, gate, id), FindRequest(log, id);
      if !cfg.hasStore then problem == Some(ApprovalStoreUnavailable)
      else if request.None? then problem == Some(ApprovalRequestNotFound)
      else
        var approved := CurrentStatus(log, id) == Some(Approved);
        var sameEvent := event.fingerprint == request.value.fingerprint;
        var sameType := event.eventType == request.value.eventType;
        var sameFix := gate.selectedFix == request.value.selectedFix;
        && (problem == None <==> approved && sameEvent && sameType && sameFix && request.value.approvable)
        && (problem == Some(ApprovalNotApproved) <==> !approved)
        && (problem == Some(ApprovalFingerprintMismatch) <==> approved && !sameEvent)
        && (problem == Some(ApprovalEventTypeMismatch) <==> approved && sameEvent && !sameType)
        && (problem == Some(ApprovalFixMismatch) <==> approved && sameEvent && sameType && !sameFix)
        && (problem == Some(ApprovalNotApprovable) <==>
            approved && sameEvent && sameType && sameFix && !request.value.approvable)
  {
  }

  /** The final verdict: what the gate said, unless the approval or the reservation takes it back. */
  lemma FinalReason(cfg: Setup, st: RunnerState, call: Call)
    ensures var asked, final := FreshGate(cfg, st.cooldown, call), Recovery(cfg, st, call).1.gate;
      var reservation := Check(st.cooldown, LimitsOf(cfg.project), KeysOf(call.event, cfg.project), call.reserveAt);
      if !asked.allowed then final == asked
      else if LacksApproval(cfg, st, call) then
        && !final.allowed && !final.wouldExecute && final.operatorRequired
        && final.reason ==
            if call.approvalId == "" then HumanApprovalRequired
            else ApprovalProblem(cfg, st.log, call.event, asked, call.approvalId).value
      else if !reservation.allowed then
        !final.allowed && !final.wouldExecute && final.reason == CooldownActive(reservation.blocked)
        && !final.operatorRequired
      else final.allowed && final.wouldExecute && final.reason == NoReason && final.cooldown.reserved
  {
    FreshGateIsAuthorized(cfg, st.cooldown, call);
    if FreshGate(cfg, st.cooldown, call).allowed {
      AllowedGateIsAuthorized(cfg.reg, cfg.site.host, cfg.project, call.event,
                              Check(st.cooldown, LimitsOf(cfg.project), KeysOf(call.event, cfg.project),
                                    call.checkedAt), call.view);
    }
    FinalIsDecided(cfg, st, call);
    DecidedReason(cfg, st.cooldown, st.log, call, FreshGate(cfg, st.cooldown, call));
  }

  lemma FinalIsDecided(cfg: Setup, st: RunnerState, call: Call)
    ensures Recovery(cfg, st, call).1.gate == Decide(cfg, st, call).1
    ensures Recovery(cfg, st, call).1.fixId == Decide(cfg, st, call).1.selectedFix
  {
  }

  lemma DecidedReason(cfg: Setup, cooldown: Registries, log: Log, call: Call, verdict: GateResult)
    requires verdict.allowed ==> verdict.wouldExecute && !verdict.operatorRequired && verdict.reason == NoReason
    ensures var final := DecideFrom(cfg, cooldown, log, call, verdict).1;
      var problem := ApprovalProblem(cfg, log, call.event, verdict, call.approvalId);
      var reservation := Check(cooldown, LimitsOf(cfg.project), KeysOf(call.event, cfg.project), call.reserveAt);
      if !verdict.allowed then final == verdict
      else if (if call.approvalId == "" then cfg.project.policy.requireHumanApproval else problem != None) then
        && !final.allowed && !final.wouldExecute && final.operatorRequired
        && final.reason == if call.approvalId == "" then HumanApprovalRequired else problem.value
      else if !reservation.allowed then
        !final.allowed && !final.wouldExecute && final.reason == CooldownActive(reservation.blocked)
        && !final.operatorRequired
      else final.allowed && final.wouldExecute && final.reason == NoReason && final.cooldown.reserved
  {
  }

  /** A call that does not execute reports none of the steps of an execution. */
  lemma NothingHappened(cfg: Setup, st: RunnerState, call: Call)
    requires !Recovery(cfg, st, call).1.executed
    ensures var result := Recovery(cfg, st, call).1;
      !result.applySuccess && !result.rerunSuccess && !result.rollbackExecuted && !result.rollbackSuccess
  {
  }

  /** A fix that no table knows fails and changes nothing, wherever it is applied. */
  lemma UnknownFixFails(cfg: Setup, disk: Disk, fixId: string, probe: Probe, stamps: Stamps)
    requires SpecByFix(cfg.reg.safe, Strip(fixId)).None? && LegacyEdits(cfg.legacy, Strip(fixId)) == []
    ensures ApplyOn(cfg, disk, fixId, probe, stamps) == (disk, false)
  {
  }

  /** Without a rollback none is reported as successful. */
  lemma NoRollbackNoSuccess(cfg: Setup, st: RunnerState, call: Call)
    requires !Recovery(cfg, st, call).1.rollbackExecuted
    ensures !Recovery(cfg, st, call).1.rollbackSuccess
  {
  }
}
