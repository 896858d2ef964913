/** What the gate's verdict means, for every event, project, registry and configuration. */
module GateTheorems {
  import opened Wrappers
  import opened ConfigTree
  import opened Semantics
  import opened Registry
  import opened Projects
  import opened Policy
  import opened Cooldown
  import opened Hosts
  import opened Gate

  /** The registry side of the conditions: the event has a safe domain, and both indexes name the same fix. */
  predicate RegistryGrants(reg: Registry, eventType: string) {
    && !RecoversUnknown(reg)
    && DomainFor(reg, eventType).Some? && DomainFor(reg, eventType).value.layer == SafeAutoRecover
    && FixForEvent(reg, eventType) == SafeFixForEvent(reg, eventType) != ""
    && SpecByFix(reg.safe, FixForEvent(reg, eventType)).Some?
    && SpecByFix(reg.safe, FixForEvent(reg, eventType)).value.eventType == eventType
  }

  /** The project side: automatic recovery is switched on, live, reversible, and the fix is on the allowlist. */
  predicate ProjectGrants(reg: Registry, project: Project, event: Event, fixId: string) {
    && project.policy.policyEnabled && project.policy.autoRecover && project.policy.rollbackOnFailure
    && fixId in project.policy.allowAutoApply
    && AllowlistClean(RuntimePolicy(reg, project))
    && event.issueType !in project.policy.escalationRequired
    && project.EffectiveDir() != ""
  }

  /** The evidence side: there is some, one domain explains it, and nothing in the fix is a forbidden action. */
  predicate EvidenceGrants(reg: Registry, host: Host, event: Event, fixId: string) {
    && (event.excerpt != "" || event.summary != "" || event.keywords != [])
    && !Ambiguous(reg, host, event, fixId)
    && !MatchesForbidden(fixId, reg.forbidden)
    && !NamesForbidden(reg, fixId) && !NamesForbidden(reg, DescriptionOf(reg, fixId))
  }

  /** The configuration side: some planned edit is an actionable one. */
  predicate HasActionableEdit(reg: Registry, host: Host, project: Project, fixId: string, view: View) {
    match SpecByFix(reg.safe, fixId)
    case None => false
    case Some(spec) => CountActionable(ReadConfig(host, project, spec, view).planned) > 0
  }

  /** Every condition but dry-run, cooldown and the configuration itself. */
  predicate Eligible(reg: Registry, host: Host, project: Project, event: Event) {
    var fixId := FixForEvent(reg, event.eventType);
    && RegistryGrants(reg, event.eventType)
    && ProjectGrants(reg, project, event, fixId)
    && EvidenceGrants(reg, host, event, fixId)
  }

  lemma SafeEventGrantsIff(policy: RecoveryPolicy, eventType: string, fixId: string, dryRun: bool)
    requires eventType in policy.eventPolicies && policy.eventPolicies[eventType] == SafePolicy(fixId, dryRun)
    ensures var d := Resolve(policy, eventType, FULL_CONFIDENCE, fixId);
      && (d.autoAllowed <==>
          && fixId != ""
          && !MatchesForbidden(fixId, policy.forbidden)
          && (policy.allowlist == map[] || fixId in policy.allowlist))
      && (d.autoAllowed ==> d == Decision(SafeAutoRecover, true, dryRun, fixId, Unblocked, false, true))
  {
    assert policy.forbidden + policy.eventPolicies[eventType].forbidden == policy.forbidden;
  }

  lemma FollowingGrantsIff(reg: Registry, policy: RecoveryPolicy, dryRun: bool, eventType: string)
    requires FollowsRegistry(reg, policy, dryRun) && policy.forbidden == reg.forbidden
    ensures var candidate := FixForEvent(reg, eventType);
      var d := Resolve(policy, eventType, FULL_CONFIDENCE, candidate);
      && (d.autoAllowed <==>
          && DomainFor(reg, eventType).Some? && DomainFor(reg, eventType).value.layer == SafeAutoRecover
          && candidate != "" && !MatchesForbidden(candidate, reg.forbidden)
          && (policy.allowlist == map[] || candidate in policy.allowlist))
      && (d.autoAllowed ==> d == Decision(SafeAutoRecover, true, dryRun, candidate, Unblocked, false, true))
  {
    var candidate := FixForEvent(reg, eventType);
    if DomainFor(reg, eventType).Some? && DomainFor(reg, eventType).value.layer == SafeAutoRecover {
      SafeEventGrantsIff(policy, eventType, candidate, dryRun);
    } else {
      ResolveByEventPolicy(policy, eventType, FULL_CONFIDENCE, candidate);
    }
  }

  lemma RuntimeAllowlist(reg: Registry, project: Project)
    ensures RuntimePolicy(reg, project).allowlist == map[] <==> project.policy.allowAutoApply == []
    ensures RuntimePolicy(reg, project).forbidden == reg.forbidden
    ensures forall fix :: fix in RuntimePolicy(reg, project).allowlist <==> fix in project.policy.allowAutoApply
  {
    if project.policy.allowAutoApply != [] {
      assert project.policy.allowAutoApply[0] in RuntimePolicy(reg, project).allowlist;
    }
  }

  lemma RuntimeGrantsIff(reg: Registry, project: Project, eventType: string)
    ensures var candidate := FixForEvent(reg, eventType);
      var d := Resolve(RuntimePolicy(reg, project), eventType, FULL_CONFIDENCE, candidate);
      && (d.autoAllowed <==>
          && DomainFor(reg, eventType).Some? && DomainFor(reg, eventType).value.layer == SafeAutoRecover
          && candidate != "" && !MatchesForbidden(candidate, reg.forbidden)
          && (project.policy.allowAutoApply == [] || candidate in project.policy.allowAutoApply))
      && (d.autoAllowed ==>
          d == Decision(SafeAutoRecover, true, project.policy.dryRun, candidate, Unblocked, false, true))
  {
    RuntimeFollowsRegistry(reg, project);
    RuntimeAllowlist(reg, project);
    FollowingGrantsIff(reg, RuntimePolicy(reg, project), project.policy.dryRun, eventType);
  }

  lemma PlannedOnlyWhenRead(host: Host, project: Project, spec: SafeSpec, view: View)
    requires CountActionable(ReadConfig(host, project, spec, view).planned) > 0
    ensures StatusReason(ReadConfig(host, project, spec, view).status) == []
    ensures ReadConfig(host, project, spec, view).planned != []
  {
  }

  lemma PrecheckPassedIff(reg: Registry, host: Host, project: Project, event: Event, fixId: string, view: View)
    ensures var p := RunPrecheck(reg, host, project, event, fixId, view);
      && (p.passed <==> p.reasons == [])
      && (p.passed <==>
          && BuildPrecheck(reg, host, project, event.eventType, fixId, view).passed
          && !Ambiguous(reg, host, event, fixId)
          && project.policy.autoRecover
          && event.issueType !in project.policy.escalationRequired
          && fixId == SafeFixForEvent(reg, event.eventType) != ""
          && fixId in project.policy.allowAutoApply
          && !NamesForbidden(reg, fixId) && !NamesForbidden(reg, DescriptionOf(reg, fixId))
          && project.EffectiveDir() != ""
          && (event.excerpt != "" || event.summary != "" || event.keywords != [])
          && project.policy.rollbackOnFailure)
  {
  }

  lemma BuildPrecheckPassedIff(reg: Registry, host: Host, project: Project, eventType: string, fixId: string,
                               view: View)
    ensures var p := BuildPrecheck(reg, host, project, eventType, fixId, view);
      && (p.passed && p.actionableCount > 0 <==>
          && HasActionableEdit(reg, host, project, fixId, view)
          && SpecByFix(reg.safe, fixId).value.eventType == eventType
          && project.EffectiveDir() != ""
          && project.policy.rollbackOnFailure)
      && (p.passed ==> p.rollbackPlanAvailable)
      && (p.actionableCount > 0 ==> !p.noOp)
  {
    match SpecByFix(reg.safe, fixId)
    case None =>
    case Some(spec) =>
      if CountActionable(ReadConfig(host, project, spec, view).planned) > 0 {
        PlannedOnlyWhenRead(host, project, spec, view);
      }
  }

  lemma JudgeAllowsIff(reg: Registry, host: Host, project: Project, event: Event, d: Decision, cooldown: CooldownResult,
                       view: View)
    requires d == Decision(SafeAutoRecover, true, project.policy.dryRun, FixForEvent(reg, event.eventType), Unblocked,
        false, true)
    ensures var g := Judge(reg, host, project, event, d.selectedFix, d, cooldown, view);
      && (g.allowed <==>
          && !project.policy.dryRun && cooldown.allowed
          && RunPrecheck(reg, host, project, event, d.selectedFix, view).passed
          && BuildPrecheck(reg, host, project, event.eventType, d.selectedFix, view).actionableCount > 0)
      && (g.allowed ==> g.layer == SafeAutoRecover && g.reason == NoReason && g.rollbackAvailable)
  {
    var fixId := d.selectedFix;
    PrecheckPassedIff(reg, host, project, event, fixId, view);
    BuildPrecheckPassedIff(reg, host, project, event.eventType, fixId, view);
    if RunPrecheck(reg, host, project, event, fixId, view).passed {
      SafeFixIsSafe(reg, event.eventType);
    }
  }

  /** The verdict when the policy validates: the policy's decision, then the judgement. */
  lemma GateUnderValidPolicy(reg: Registry, host: Host, project: Project, event: Event, cooldown: CooldownResult,
                             view: View)
    requires project.policy.policyEnabled && ValidPolicy(reg, RuntimePolicy(reg, project))
    ensures var fixId := FixForEvent(reg, event.eventType);
      var d := Resolve(RuntimePolicy(reg, project), event.eventType, FULL_CONFIDENCE, fixId);
      var g := EvaluateGate(reg, host, project, event, cooldown, view);
      && g == Judge(reg, host, project, event, fixId, d, cooldown, view)
      && (g.allowed ==> d.autoAllowed)
  {
  }

  lemma GrantedJudgementIff(reg: Registry, host: Host, project: Project, event: Event, d: Decision,
                            cooldown: CooldownResult,
                            view: View)
    requires d == Decision(SafeAutoRecover, true, project.policy.dryRun, FixForEvent(reg, event.eventType), Unblocked,
        false, true)
    ensures Judge(reg, host, project, event, d.selectedFix, d, cooldown, view).allowed <==>
      && !project.policy.dryRun && cooldown.allowed
      && HasActionableEdit(reg, host, project, d.selectedFix, view)
      && SpecByFix(reg.safe, d.selectedFix).value.eventType == event.eventType
      && project.EffectiveDir() != "" && project.policy.rollbackOnFailure
      && !Ambiguous(reg, host, event, d.selectedFix)
      && project.policy.autoRecover
      && event.issueType !in project.policy.escalationRequired
      && d.selectedFix == SafeFixForEvent(reg, event.eventType) != ""
      && d.selectedFix in project.policy.allowAutoApply
      && !NamesForbidden(reg, d.selectedFix) && !NamesForbidden(reg, DescriptionOf(reg, d.selectedFix))
      && (event.excerpt != "" || event.summary != "" || event.keywords != [])
  {
    JudgeAllowsIff(reg, host, project, event, d, cooldown, view);
    PrecheckPassedIff(reg, host, project, event, d.selectedFix, view);
    BuildPrecheckPassedIff(reg, host, project, event.eventType, d.selectedFix, view);
  }

  /**
   The gate lets an event through exactly when every documented condition holds: nothing else is required,
   and none of the conditions can be missing.
   */
  lemma GateAllowsIff(reg: Registry, host: Host, project: Project, event: Event, cooldown: CooldownResult, view: View)
    ensures EvaluateGate(reg, host, project, event, cooldown, view).allowed <==>
      && Eligible(reg, host, project, event)
      && !project.policy.dryRun
      && cooldown.allowed
      && HasActionableEdit(reg, host, project, FixForEvent(reg, event.eventType), view)
  {
    RuntimePolicyValidIff(reg, project);
    if project.policy.policyEnabled && ValidPolicy(reg, RuntimePolicy(reg, project)) {
      var fixId := FixForEvent(reg, event.eventType);
      var d := Resolve(RuntimePolicy(reg, project), event.eventType, FULL_CONFIDENCE, fixId);
      GateUnderValidPolicy(reg, host, project, event, cooldown, view);
      RuntimeGrantsIff(reg, project, event.eventType);
      if d.autoAllowed {
        GrantedJudgementIff(reg, host, project, event, d, cooldown, view);
      }
    }
  }

  /**
   An allowed verdict is fit for execution: it is live, it names the registry's fix for the event, it asks
   for nobody, it is in the safe layer, and it records no objection.
   */
  lemma AllowedGateIsAuthorized(reg: Registry, host: Host, project: Project, event: Event, cooldown: CooldownResult,
                                view: View)
    requires EvaluateGate(reg, host, project, event, cooldown, view).allowed
    ensures var g := EvaluateGate(reg, host, project, event, cooldown, view);
      && g.wouldExecute && !g.dryRun && !g.operatorRequired && g.auditRequired
      && g.layer == SafeAutoRecover
      && g.selectedFix == g.candidateFix == FixForEvent(reg, event.eventType) != ""
      && g.rollbackAvailable && g.precheck.passed && g.precheck.actionableCount > 0
      && g.eventType == event.eventType && g.fingerprint == event.fingerprint
      && g.reason == NoReason
      && g.IsCandidate()
  {
    GateAllowsIff(reg, host, project, event, cooldown, view);
    RuntimeGrantsIff(reg, project, event.eventType);
    var fixId := FixForEvent(reg, event.eventType);
    JudgeAllowsIff(reg, host, project, event, Resolve(RuntimePolicy(reg, project), event.eventType, FULL_CONFIDENCE,
                   fixId),
                   cooldown, view);
  }

  ghost predicate Substantive(reasons: seq<GateReason>) {
    NoReason !in reasons && AmbiguousEvidence !in reasons
  }

  lemma SettingReasonsSubstantive(reg: Registry, project: Project, event: Event, fixId: string)
    ensures Substantive(SettingReasons(reg, project, event, fixId))
  {
  }

  lemma EvidenceReasonsSubstantive(reg: Registry, project: Project, event: Event, fixId: string)
    ensures Substantive(EvidenceReasons(reg, project, event, fixId))
  {
  }

  lemma JoinedSubstantive(left: seq<GateReason>, right: seq<GateReason>)
    requires Substantive(left) && Substantive(right)
    ensures Substantive(left + right)
  {
  }

  lemma ChangeReasonsSubstantive(project: Project, eventType: string, spec: SafeSpec, read: ReadResult)
    ensures Substantive(ChangeReasons(project, eventType, spec, read))
  {
    var mismatch := When(spec.eventType != eventType, FixEventTypeMismatch);
    var noDir := When(project.EffectiveDir() == "", ProjectDirMissing);
    var status := StatusReason(read.status);
    var noField := When(read.status == ReadOk && read.planned == [], TargetFieldMissing);
    var unsafe := When(CountUnsafe(read.planned) > 0 && CountActionable(read.planned) == 0, UnsafeTransition);
    var noPlan := When(!project.policy.rollbackOnFailure, RollbackPlanUnavailable);
    JoinedSubstantive(mismatch, noDir);
    JoinedSubstantive(mismatch + noDir, status);
    JoinedSubstantive(mismatch + noDir + status, noField);
    JoinedSubstantive(mismatch + noDir + status + noField, unsafe);
    JoinedSubstantive(mismatch + noDir + status + noField + unsafe, noPlan);
  }

  lemma Assembled(first: seq<GateReason>, base: seq<GateReason>, settings: seq<GateReason>, evidence: seq<GateReason>)
    requires Substantive(base) && Substantive(settings) && Substantive(evidence)
    requires first == [] || first == [AmbiguousEvidence]
    ensures NoReason !in first + base + settings + evidence
    ensures AmbiguousEvidence in first + base + settings + evidence <==> first != []
  {
    if first != [] {
      assert (first + base + settings + evidence)[0] == AmbiguousEvidence;
    }
  }

  lemma ReasonsAreReasons(reg: Registry, host: Host, project: Project, event: Event, fixId: string, view: View)
    ensures var reasons := RunPrecheck(reg, host, project, event, fixId, view).reasons;
      NoReason !in reasons && (AmbiguousEvidence in reasons <==> Ambiguous(reg, host, event, fixId))
  {
    var base := BuildPrecheck(reg, host, project, event.eventType, fixId, view).reasons;
    assert Substantive(base) by {
      match SpecByFix(reg.safe, fixId)
      case None =>
      case Some(spec) => ChangeReasonsSubstantive(project, event.eventType, spec,
          ReadConfig(host, project, spec, view));
    }
    SettingReasonsSubstantive(reg, project, event, fixId);
    EvidenceReasonsSubstantive(reg, project, event, fixId);
    Assembled(When(Ambiguous(reg, host, event, fixId), AmbiguousEvidence), base,
              SettingReasons(reg, project, event, fixId), EvidenceReasons(reg, project, event, fixId));
  }

  lemma JudgeSaysWhy(reg: Registry, host: Host, project: Project, event: Event, candidate: string, d: Decision,
                     cooldown: CooldownResult, view: View)
    requires d.autoAllowed <==> d.reason == Unblocked
    requires d.autoAllowed ==> !d.operatorRequired
    ensures var g := Judge(reg, host, project, event, candidate, d, cooldown, view);
      g.allowed <==> g.reason == NoReason
  {
    ReasonsAreReasons(reg, host, project, event, d.selectedFix, view);
    var p := RunPrecheck(reg, host, project, event, d.selectedFix, view);
    assert p.passed <==> p.reasons == [];
    assert p.reasons != [] ==> p.reasons[0] != NoReason;
  }

  /** A verdict never blocks in silence: it is allowed exactly when it gives no reason. */
  lemma BlockedGateSaysWhy(reg: Registry, host: Host, project: Project, event: Event, cooldown: CooldownResult,
                           view: View)
    ensures var g := EvaluateGate(reg, host, project, event, cooldown, view);
      g.allowed <==> g.reason == NoReason
  {
    if project.policy.policyEnabled && ValidPolicy(reg, RuntimePolicy(reg, project)) {
      var fixId := FixForEvent(reg, event.eventType);
      RuntimeGrantsIff(reg, project, event.eventType);
      ResolveByEventPolicy(RuntimePolicy(reg, project), event.eventType, FULL_CONFIDENCE, fixId);
      JudgeSaysWhy(reg, host, project, event, fixId,
                   Resolve(RuntimePolicy(reg, project), event.eventType, FULL_CONFIDENCE, fixId), cooldown, view);
    }
  }

  /** What the monitor asks before it spends its recovery allowance on an event. */
  predicate IsRecoverCandidate(g: GateResult) {
    AmbiguousEvidence !in g.precheck.reasons && g.IsCandidate() && g.precheck.passed
  }

  /** An event the gate lets through was a candidate in every earlier evaluation that saw the same files and ports. */
  lemma AllowedWasCandidate(reg: Registry, host: Host, project: Project, event: Event, earlier: CooldownResult,
                            later: CooldownResult, view: View)
    requires EvaluateGate(reg, host, project, event, later, view).allowed
    ensures IsRecoverCandidate(EvaluateGate(reg, host, project, event, earlier, view))
  {
    AllowedGateIsAuthorized(reg, host, project, event, later, view);
    assert EvaluateGate(reg, host, project, event, earlier, view).precheck ==
           EvaluateGate(reg, host, project, event, later, view).precheck;
  }
}
