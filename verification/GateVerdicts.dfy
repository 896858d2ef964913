/** What the gate answers for every event, granted or not: layer, reason, and whether a person is needed. */
module GateVerdicts {
  import opened Wrappers
  import opened ConfigTree
  import opened Semantics
  import opened Registry
  import opened Projects
  import opened Hosts
  import opened Policy
  import opened Cooldown
  import opened Gate
  import opened GateTheorems

  /** The project's policy is switched on and passes validation. */
  predicate InForce(reg: Registry, project: Project) {
    project.policy.policyEnabled && !RecoversUnknown(reg) && AllowlistClean(RuntimePolicy(reg, project))
  }

  /** The verdict grants nothing, and gives this layer and reason. */
  predicate Refuses(g: GateResult, layer: Layer, reason: GateReason, operator: bool) {
    && !g.allowed && !g.wouldExecute && !g.autoAllowed && g.dryRun && g.auditRequired && g.selectedFix == ""
    && g.layer == layer && g.reason == reason && g.operatorRequired == operator
  }

  // ----- no policy -----

  lemma WithoutPolicy(reg: Registry, host: Host, project: Project, event: Event, cooldown: CooldownResult, view: View)
    requires !InForce(reg, project)
    ensures Refuses(EvaluateGate(reg, host, project, event, cooldown, view), Disabled,
                    if project.policy.policyEnabled then PolicyValidationFailed else PolicyDisabled, true)
    ensures var g := EvaluateGate(reg, host, project, event, cooldown, view);
      && !g.precheck.passed && g.precheck.reasons == [] && g.precheck.planned == []
      && g.precheck.actionableCount == g.precheck.unsafeCount == 0
      && !g.precheck.noOp && !g.precheck.rollbackPlanAvailable && !g.rollbackAvailable
      && g.eventType == event.eventType && g.fingerprint == event.fingerprint && g.cooldown == cooldown
  {
    RuntimePolicyValidIff(reg, project);
  }

  // ----- what the event's domain says -----

  lemma RefusedByPolicy(reg: Registry, host: Host, project: Project, event: Event, cooldown: CooldownResult, view: View)
    requires InForce(reg, project)
    ensures var fixId := FixForEvent(reg, event.eventType);
      var d := Resolve(RuntimePolicy(reg, project), event.eventType, FULL_CONFIDENCE, fixId);
      !d.autoAllowed && d.auditRequired && d.layer != SafeAutoRecover ==>
        Refuses(EvaluateGate(reg, host, project, event, cooldown, view), d.layer, FromPolicy(d.reason),
                d.operatorRequired)
  {
    var fixId := FixForEvent(reg, event.eventType);
    var d := Resolve(RuntimePolicy(reg, project), event.eventType, FULL_CONFIDENCE, fixId);
    RuntimePolicyValidIff(reg, project);
    GateUnderValidPolicy(reg, host, project, event, cooldown, view);
    ResolveByEventPolicy(RuntimePolicy(reg, project), event.eventType, FULL_CONFIDENCE, fixId);
    ReasonsAreReasons(reg, host, project, event, d.selectedFix, view);
  }

  lemma RuntimeForbids(reg: Registry, project: Project, eventType: string)
    ensures var policy := RuntimePolicy(reg, project);
      policy.forbidden + (if eventType in policy.eventPolicies then policy.eventPolicies[eventType].forbidden else [])
        == reg.forbidden
  {
    RuntimePolicyIs(reg, project);
    NothingAdded(reg.forbidden);
  }

  lemma NothingAdded(texts: seq<string>)
    ensures texts + [] == texts
  {
  }

  /** A forbidden fix is refused before anything else is asked. */
  lemma ForbiddenFix(reg: Registry, host: Host, project: Project, event: Event, cooldown: CooldownResult, view: View)
    requires InForce(reg, project) && MatchesForbidden(FixForEvent(reg, event.eventType), reg.forbidden)
    ensures Refuses(EvaluateGate(reg, host, project, event, cooldown, view), Disabled, FromPolicy(CandidateForbidden),
                    true)
  {
    RuntimeForbids(reg, project, event.eventType);
    RefusedByPolicy(reg, host, project, event, cooldown, view);
  }

  /** An event type without a domain is diagnosed, and needs no person. */
  lemma UnknownEvent(reg: Registry, host: Host, project: Project, event: Event, cooldown: CooldownResult, view: View)
    requires InForce(reg, project) && DomainFor(reg, event.eventType).None?
    ensures Refuses(EvaluateGate(reg, host, project, event, cooldown, view), DiagnoseOnly, FromPolicy(UnknownEventType),
                    false)
  {
    RuntimeForbids(reg, project, event.eventType);
    RuntimeEventPolicy(reg, project, event.eventType);
    RefusedByPolicy(reg, host, project, event, cooldown, view);
  }

  /** The event of a diagnosed domain is diagnosed. */
  lemma DiagnosedEvent(reg: Registry, host: Host, project: Project, event: Event, cooldown: CooldownResult, view: View)
    requires InForce(reg, project) && !MatchesForbidden(FixForEvent(reg, event.eventType), reg.forbidden)
    requires DomainFor(reg, event.eventType).Some? && DomainFor(reg, event.eventType).value.layer == DiagnoseOnly
    ensures Refuses(EvaluateGate(reg, host, project, event, cooldown, view), DiagnoseOnly,
                    FromPolicy(EventPolicyDiagnoseOnly), false)
  {
    RuntimeForbids(reg, project, event.eventType);
    RuntimeEventPolicy(reg, project, event.eventType);
    RefusedByPolicy(reg, host, project, event, cooldown, view);
  }

  /** The event of a manual domain, or of one whose layer is no layer of domains, is escalated to a person. */
  lemma ManualEvent(reg: Registry, host: Host, project: Project, event: Event, cooldown: CooldownResult, view: View)
    requires InForce(reg, project) && !MatchesForbidden(FixForEvent(reg, event.eventType), reg.forbidden)
    requires DomainFor(reg, event.eventType).Some?
    requires DomainFor(reg, event.eventType).value.layer != DiagnoseOnly
    requires DomainFor(reg, event.eventType).value.layer != SafeAutoRecover
    ensures Refuses(EvaluateGate(reg, host, project, event, cooldown, view), ManualEscalation,
                    FromPolicy(EventPolicyManualEscalation), true)
  {
    RuntimeForbids(reg, project, event.eventType);
    RuntimeEventPolicy(reg, project, event.eventType);
    RefusedByPolicy(reg, host, project, event, cooldown, view);
  }

  /** An event of a safe domain without a fix, or with one that the project does not list, is escalated. */
  lemma UngrantedEvent(reg: Registry, host: Host, project: Project, event: Event, cooldown: CooldownResult, view: View)
    requires InForce(reg, project) && !MatchesForbidden(FixForEvent(reg, event.eventType), reg.forbidden)
    requires DomainFor(reg, event.eventType).Some?
    requires DomainFor(reg, event.eventType).value.layer == SafeAutoRecover
    requires var fixId := FixForEvent(reg, event.eventType);
      fixId == "" || (project.policy.allowAutoApply != [] && fixId !in project.policy.allowAutoApply)
    ensures Refuses(EvaluateGate(reg, host, project, event, cooldown, view), ManualEscalation,
                    FromPolicy(if FixForEvent(reg, event.eventType) == "" then CandidateMissing
                               else CandidateNotInActionAllowlist), true)
  {
    RuntimeForbids(reg, project, event.eventType);
    RuntimeEventPolicy(reg, project, event.eventType);
    RuntimeAllowlist(reg, project);
    RefusedByPolicy(reg, host, project, event, cooldown, view);
  }

  // ----- an event whose fix the policy grants -----

  /** The event has a safe domain with a fix that nothing forbids and that the project lists, if it lists any. */
  predicate GrantsFix(reg: Registry, project: Project, event: Event) {
    var fixId := FixForEvent(reg, event.eventType);
    && InForce(reg, project)
    && DomainFor(reg, event.eventType).Some? && DomainFor(reg, event.eventType).value.layer == SafeAutoRecover
    && fixId != "" && !MatchesForbidden(fixId, reg.forbidden)
    && (project.policy.allowAutoApply == [] || fixId in project.policy.allowAutoApply)
  }

  /** The verdict on a granted event is the judgement of its own fix. */
  lemma GrantedIsJudged(reg: Registry, host: Host, project: Project, event: Event, cooldown: CooldownResult, view: View)
    requires GrantsFix(reg, project, event)
    ensures var fixId := FixForEvent(reg, event.eventType);
      EvaluateGate(reg, host, project, event, cooldown, view) ==
        Judge(reg, host, project, event, fixId,
              Decision(SafeAutoRecover, true, project.policy.dryRun, fixId, Unblocked, false, true), cooldown, view)
  {
    RuntimePolicyValidIff(reg, project);
    GateUnderValidPolicy(reg, host, project, event, cooldown, view);
    RuntimeGrantsIff(reg, project, event.eventType);
  }

  /** A granted event keeps its fix. Ambiguous evidence, and nothing else, calls for a person and takes the layer. */
  lemma GrantedVerdict(reg: Registry, host: Host, project: Project, event: Event, cooldown: CooldownResult, view: View)
    requires GrantsFix(reg, project, event)
    ensures var fixId := FixForEvent(reg, event.eventType);
      var g := EvaluateGate(reg, host, project, event, cooldown, view);
      && g.autoAllowed && g.selectedFix == g.candidateFix == fixId && g.dryRun == project.policy.dryRun
      && g.auditRequired && g.wouldExecute == g.allowed
      && g.operatorRequired == Ambiguous(reg, host, event, fixId)
      && g.layer == (if Ambiguous(reg, host, event, fixId) then ManualEscalation else SafeAutoRecover)
      && (Ambiguous(reg, host, event, fixId) ==> !g.allowed && g.reason == AmbiguousEvidence)
      && g.eventType == event.eventType && g.fingerprint == event.fingerprint && g.cooldown == cooldown
  {
    GrantedIsJudged(reg, host, project, event, cooldown, view);
    ReasonsAreReasons(reg, host, project, event, FixForEvent(reg, event.eventType), view);
  }

  lemma EligibleIsGranted(reg: Registry, host: Host, project: Project, event: Event)
    requires Eligible(reg, host, project, event)
    ensures GrantsFix(reg, project, event)
  {
  }

  lemma EligibleReasons(reg: Registry, host: Host, project: Project, event: Event, view: View)
    requires Eligible(reg, host, project, event)
    ensures var fixId := FixForEvent(reg, event.eventType);
      RunPrecheck(reg, host, project, event, fixId, view).reasons ==
        BuildPrecheck(reg, host, project, event.eventType, fixId, view).reasons
  {
    var fixId := FixForEvent(reg, event.eventType);
    assert SettingReasons(reg, project, event, fixId) == [] && EvidenceReasons(reg, project, event, fixId) == [];
  }

  /**
   The reason for an eligible event: what the file itself says, then the cooldown, then the dry run. There is none
   exactly if the event is let through.
   */
  lemma EligibleVerdict(reg: Registry, host: Host, project: Project, event: Event, cooldown: CooldownResult, view: View)
    requires Eligible(reg, host, project, event)
    ensures var fixId := FixForEvent(reg, event.eventType);
      var g := EvaluateGate(reg, host, project, event, cooldown, view);
      var base := BuildPrecheck(reg, host, project, event.eventType, fixId, view);
      && !g.operatorRequired && g.layer == SafeAutoRecover
      && g.reason ==
          if base.reasons != [] then base.reasons[0]
          else if base.noOp then NoOpAlreadySafe
          else if base.actionableCount == 0 then NoActionableEdit
          else if !cooldown.allowed then CooldownActive(cooldown.blocked)
          else if project.policy.dryRun then DryRun
          else NoReason
  {
    var fixId := FixForEvent(reg, event.eventType);
    EligibleIsGranted(reg, host, project, event);
    GrantedIsJudged(reg, host, project, event, cooldown, view);
    EligibleReasons(reg, host, project, event, view);
    ReasonsAreReasons(reg, host, project, event, fixId, view);
    SafeFixIsSafe(reg, event.eventType);
    BuildPrecheckPassedIff(reg, host, project, event.eventType, fixId, view);
  }

  /** With an actionable edit only the cooldown and the dry run are left to object. */
  lemma ActionableVerdict(reg: Registry, host: Host, project: Project, event: Event, cooldown: CooldownResult,
                          view: View)
    requires Eligible(reg, host, project, event)
    requires HasActionableEdit(reg, host, project, FixForEvent(reg, event.eventType), view)
    ensures EvaluateGate(reg, host, project, event, cooldown, view).reason ==
      if !cooldown.allowed then CooldownActive(cooldown.blocked) else if project.policy.dryRun then DryRun else NoReason
  {
    EligibleVerdict(reg, host, project, event, cooldown, view);
    BuildPrecheckPassedIff(reg, host, project, event.eventType, FixForEvent(reg, event.eventType), view);
  }

  // ----- the candidate check -----

  lemma CandidateIsPassed(reg: Registry, host: Host, project: Project, event: Event, cooldown: CooldownResult,
                          view: View)
    requires GrantsFix(reg, project, event)
    ensures IsRecoverCandidate(EvaluateGate(reg, host, project, event, cooldown, view)) <==>
      RunPrecheck(reg, host, project, event, FixForEvent(reg, event.eventType), view).passed
  {
    var fixId := FixForEvent(reg, event.eventType);
    GrantedIsJudged(reg, host, project, event, cooldown, view);
    PrecheckPassedIff(reg, host, project, event, fixId, view);
    ReasonsAreReasons(reg, host, project, event, fixId, view);
  }

  lemma PassedIsEligible(reg: Registry, host: Host, project: Project, event: Event, view: View)
    requires GrantsFix(reg, project, event)
    ensures var fixId := FixForEvent(reg, event.eventType);
      RunPrecheck(reg, host, project, event, fixId, view).passed <==>
      Eligible(reg, host, project, event) && BuildPrecheck(reg, host, project, event.eventType, fixId, view).passed
  {
    var fixId := FixForEvent(reg, event.eventType);
    PrecheckPassedIff(reg, host, project, event, fixId, view);
    PassedHasSpec(reg, host, project, event.eventType, fixId, view);
  }

  lemma UngrantedIsNoCandidate(reg: Registry, host: Host, project: Project, event: Event, cooldown: CooldownResult,
                               view: View)
    requires !GrantsFix(reg, project, event)
    ensures !IsRecoverCandidate(EvaluateGate(reg, host, project, event, cooldown, view))
    ensures !Eligible(reg, host, project, event)
  {
    RuntimePolicyValidIff(reg, project);
    if InForce(reg, project) {
      GateUnderValidPolicy(reg, host, project, event, cooldown, view);
      RuntimeGrantsIff(reg, project, event.eventType);
      ResolveByEventPolicy(RuntimePolicy(reg, project), event.eventType, FULL_CONFIDENCE,
                           FixForEvent(reg, event.eventType));
    }
  }

  /** An event is a candidate exactly if it is eligible and the change itself passes its precheck. */
  lemma CandidateIff(reg: Registry, host: Host, project: Project, event: Event, cooldown: CooldownResult, view: View)
    ensures IsRecoverCandidate(EvaluateGate(reg, host, project, event, cooldown, view)) <==>
      && Eligible(reg, host, project, event)
      && BuildPrecheck(reg, host, project, event.eventType, FixForEvent(reg, event.eventType), view).passed
  {
    if GrantsFix(reg, project, event) {
      CandidateIsPassed(reg, host, project, event, cooldown, view);
      PassedIsEligible(reg, host, project, event, view);
    } else {
      UngrantedIsNoCandidate(reg, host, project, event, cooldown, view);
    }
  }

  lemma PassedHasSpec(reg: Registry, host: Host, project: Project, eventType: string, fixId: string, view: View)
    ensures BuildPrecheck(reg, host, project, eventType, fixId, view).passed ==>
      SpecByFix(reg.safe, fixId).Some? && SpecByFix(reg.safe, fixId).value.eventType == eventType
      && project.EffectiveDir() != "" && project.policy.rollbackOnFailure
  {
  }
}
