/** From a call that needs a person to the request it leaves, and from the approval to the call that uses it. */
module ApprovalFlow {
  import opened Wrappers
  import opened Registry
  import opened Projects
  import opened Hosts
  import opened Policy
  import opened Cooldown
  import opened Gate
  import opened GateTheorems
  import opened Approvals
  import opened ApprovalHistory
  import opened Runner
  import opened RunnerTheorems

  /** Everything that makes an event eligible, whether or not its evidence is ambiguous. */
  predicate EligibleOrAmbiguous(reg: Registry, project: Project, event: Event) {
    var fixId := FixForEvent(reg, event.eventType);
    && RegistryGrants(reg, event.eventType)
    && ProjectGrants(reg, project, event, fixId)
    && (event.excerpt != "" || event.summary != "" || event.keywords != [])
    && !MatchesForbidden(fixId, reg.forbidden)
    && !NamesForbidden(reg, fixId) && !NamesForbidden(reg, DescriptionOf(reg, fixId))
  }

  /** No edit planned for the fix is refused. */
  predicate NoUnsafeEdit(reg: Registry, host: Host, project: Project, fixId: string, view: View) {
    match SpecByFix(reg.safe, fixId)
    case None => false
    case Some(spec) => CountUnsafe(ReadConfig(host, project, spec, view).planned) == 0
  }

  /** What a person may approve: the registered fix of an event that nothing but ambiguity stands against. */
  predicate MayBeApproved(reg: Registry, host: Host, project: Project, event: Event, view: View) {
    var fixId := FixForEvent(reg, event.eventType);
    && EligibleOrAmbiguous(reg, project, event)
    && HasActionableEdit(reg, host, project, fixId, view)
    && NoUnsafeEdit(reg, host, project, fixId, view)
  }

  ghost predicate OnlyAmbiguity(reasons: seq<GateReason>) {
    forall r | r in reasons :: r == AmbiguousEvidence
  }

  lemma OnlyAmbiguityLeft(first: seq<GateReason>, base: seq<GateReason>, settings: seq<GateReason>,
                          evidence: seq<GateReason>)
    requires Substantive(base) && Substantive(settings) && Substantive(evidence)
    requires first == [] || first == [AmbiguousEvidence]
    ensures OnlyAmbiguity(first + base + settings + evidence) <==> base == [] && settings == [] && evidence == []
  {
    var all := first + base + settings + evidence;
    forall r | r in base + settings + evidence ensures r != AmbiguousEvidence && r in all {
      assert r in base || r in settings || r in evidence;
    }
    var rest := base + settings + evidence;
    if rest != [] {
      assert rest[0] in rest;
    } else {
      assert all == first;
    }
  }

  lemma OnlyAmbiguityIff(reg: Registry, host: Host, project: Project, event: Event, fixId: string, view: View)
    ensures OnlyAmbiguity(RunPrecheck(reg, host, project, event, fixId, view).reasons) <==>
      && BuildPrecheck(reg, host, project, event.eventType, fixId, view).reasons == []
      && SettingReasons(reg, project, event, fixId) == [] && EvidenceReasons(reg, project, event, fixId) == []
  {
    assert Substantive(BuildPrecheck(reg, host, project, event.eventType, fixId, view).reasons) by {
      match SpecByFix(reg.safe, fixId)
      case None =>
      case Some(spec) => ChangeReasonsSubstantive(project, event.eventType, spec,
                                                  ReadConfig(host, project, spec, view));
    }
    SettingReasonsSubstantive(reg, project, event, fixId);
    EvidenceReasonsSubstantive(reg, project, event, fixId);
    var first := When(Ambiguous(reg, host, event, fixId), AmbiguousEvidence);
    var base := BuildPrecheck(reg, host, project, event.eventType, fixId, view).reasons;
    var settings, evidence := SettingReasons(reg, project, event, fixId), EvidenceReasons(reg, project, event, fixId);
    assert RunPrecheck(reg, host, project, event, fixId, view).reasons == first + base + settings + evidence;
    OnlyAmbiguityLeft(first, base, settings, evidence);
  }

  lemma NoReasonsIff(reg: Registry, project: Project, event: Event, fixId: string)
    ensures SettingReasons(reg, project, event, fixId) == [] && EvidenceReasons(reg, project, event, fixId) == [] <==>
      && project.policy.autoRecover
      && event.issueType !in project.policy.escalationRequired
      && fixId == SafeFixForEvent(reg, event.eventType) != ""
      && fixId in project.policy.allowAutoApply
      && !NamesForbidden(reg, fixId) && !NamesForbidden(reg, DescriptionOf(reg, fixId))
      && project.EffectiveDir() != ""
      && (event.excerpt != "" || event.summary != "" || event.keywords != [])
      && project.policy.rollbackOnFailure
  {
  }

  lemma UnsafeCounted(reg: Registry, host: Host, project: Project, event: Event, fixId: string, view: View)
    requires HasActionableEdit(reg, host, project, fixId, view)
    ensures RunPrecheck(reg, host, project, event, fixId, view).unsafeCount == 0 <==>
      NoUnsafeEdit(reg, host, project, fixId, view)
  {
  }

  predicate Granted(reg: Registry, project: Project, event: Event, d: Decision) {
    d == Decision(SafeAutoRecover, true, project.policy.dryRun, FixForEvent(reg, event.eventType), Unblocked, false,
                  true)
  }

  lemma NotForbidden(precheck: Precheck, cooldown: CooldownResult, rollbackAvailable: bool)
    requires OnlyAmbiguity(precheck.reasons)
    ensures ForbiddenAction !in precheck.reasons
    ensures FirstFailure(precheck, cooldown, rollbackAvailable) != ForbiddenAction
  {
    if precheck.reasons != [] {
      assert precheck.reasons[0] in precheck.reasons;
    }
  }

  lemma JudgedBasis(reg: Registry, host: Host, project: Project, event: Event, d: Decision, cooldown: CooldownResult,
                    view: View)
    requires Granted(reg, project, event, d)
    ensures var g := Judge(reg, host, project, event, d.selectedFix, d, cooldown, view);
      var p := RunPrecheck(reg, host, project, event, d.selectedFix, view);
      && g.selectedFix == d.selectedFix && g.precheck == p && g.autoAllowed
      && g.rollbackAvailable ==
          (project.policy.rollbackOnFailure && IsSafeFix(reg, d.selectedFix) && p.rollbackPlanAvailable)
      && (OnlyAmbiguity(p.reasons) ==> !HasForbiddenAction(g))
      && g.operatorRequired == (AmbiguousEvidence in p.reasons)
  {
    var p := RunPrecheck(reg, host, project, event, d.selectedFix, view);
    if OnlyAmbiguity(p.reasons) {
      NotForbidden(p, cooldown,
                   project.policy.rollbackOnFailure && IsSafeFix(reg, d.selectedFix) && p.rollbackPlanAvailable);
    }
  }

  lemma OnlyAmbiguityMeans(reg: Registry, host: Host, project: Project, event: Event, fixId: string, view: View)
    ensures var p := RunPrecheck(reg, host, project, event, fixId, view);
      OnlyAmbiguity(p.reasons) && p.actionableCount > 0 <==>
      && HasActionableEdit(reg, host, project, fixId, view)
      && SpecByFix(reg.safe, fixId).value.eventType == event.eventType
      && project.policy.autoRecover
      && event.issueType !in project.policy.escalationRequired
      && fixId == SafeFixForEvent(reg, event.eventType) != ""
      && fixId in project.policy.allowAutoApply
      && !NamesForbidden(reg, fixId) && !NamesForbidden(reg, DescriptionOf(reg, fixId))
      && project.EffectiveDir() != ""
      && (event.excerpt != "" || event.summary != "" || event.keywords != [])
      && project.policy.rollbackOnFailure
  {
    OnlyAmbiguityIff(reg, host, project, event, fixId, view);
    NoReasonsIff(reg, project, event, fixId);
    var base := BuildPrecheck(reg, host, project, event.eventType, fixId, view);
    BuildPrecheckPassedIff(reg, host, project, event.eventType, fixId, view);
    assert base.passed <==> base.reasons == [];
    assert RunPrecheck(reg, host, project, event, fixId, view).actionableCount == base.actionableCount;
  }

  lemma PlanIsAvailable(reg: Registry, host: Host, project: Project, event: Event, fixId: string, view: View)
    ensures var p := RunPrecheck(reg, host, project, event, fixId, view);
      p.actionableCount > 0 && project.policy.rollbackOnFailure ==> p.rollbackPlanAvailable
  {
  }

  /** The project would grant the fix of the event if the evidence were clear. */
  predicate PolicyGrants(reg: Registry, project: Project, event: Event) {
    && DomainFor(reg, event.eventType).Some? && DomainFor(reg, event.eventType).value.layer == SafeAutoRecover
    && !RecoversUnknown(reg) && AllowlistClean(RuntimePolicy(reg, project)) && project.policy.policyEnabled
    && !MatchesForbidden(FixForEvent(reg, event.eventType), reg.forbidden)
  }

  lemma MayBeApprovedLeaves(reg: Registry, host: Host, project: Project, event: Event, view: View)
    requires PolicyGrants(reg, project, event) && MayBeApproved(reg, host, project, event, view)
    ensures var fixId := FixForEvent(reg, event.eventType);
      var p := RunPrecheck(reg, host, project, event, fixId, view);
      && OnlyAmbiguity(p.reasons) && p.actionableCount > 0 && p.unsafeCount == 0
      && fixId != "" && IsSafeFix(reg, fixId) && project.policy.rollbackOnFailure && p.rollbackPlanAvailable
  {
    var fixId := FixForEvent(reg, event.eventType);
    OnlyAmbiguityMeans(reg, host, project, event, fixId, view);
    PlanIsAvailable(reg, host, project, event, fixId, view);
    UnsafeCounted(reg, host, project, event, fixId, view);
    SafeFixIsSafe(reg, event.eventType);
  }

  lemma LeavesMayBeApproved(reg: Registry, host: Host, project: Project, event: Event, view: View)
    requires PolicyGrants(reg, project, event)
    requires var p := RunPrecheck(reg, host, project, event, FixForEvent(reg, event.eventType), view);
      OnlyAmbiguity(p.reasons) && p.actionableCount > 0 && p.unsafeCount == 0
    ensures MayBeApproved(reg, host, project, event, view)
  {
    var fixId := FixForEvent(reg, event.eventType);
    OnlyAmbiguityMeans(reg, host, project, event, fixId, view);
    UnsafeCounted(reg, host, project, event, fixId, view);
  }

  lemma MayBeApprovedIff(reg: Registry, host: Host, project: Project, event: Event, view: View)
    requires PolicyGrants(reg, project, event)
    ensures var fixId := FixForEvent(reg, event.eventType);
      var p := RunPrecheck(reg, host, project, event, fixId, view);
      && (MayBeApproved(reg, host, project, event, view) <==>
          OnlyAmbiguity(p.reasons) && p.actionableCount > 0 && p.unsafeCount == 0)
      && (MayBeApproved(reg, host, project, event, view) ==>
          fixId != "" && IsSafeFix(reg, fixId) && project.policy.rollbackOnFailure && p.rollbackPlanAvailable)
  {
    var p := RunPrecheck(reg, host, project, event, FixForEvent(reg, event.eventType), view);
    if MayBeApproved(reg, host, project, event, view) {
      MayBeApprovedLeaves(reg, host, project, event, view);
    } else if OnlyAmbiguity(p.reasons) && p.actionableCount > 0 && p.unsafeCount == 0 {
      LeavesMayBeApproved(reg, host, project, event, view);
    }
  }

  /** The judgement of a granted fix can be approved exactly if nothing but ambiguity stands against it. */
  lemma GrantedApprovableIff(reg: Registry, host: Host, project: Project, event: Event, d: Decision,
                             cooldown: CooldownResult, view: View)
    requires Granted(reg, project, event, d) && PolicyGrants(reg, project, event)
    ensures var g := Judge(reg, host, project, event, d.selectedFix, d, cooldown, view);
      && (IsApprovalCandidate(reg, event.eventType, g.selectedFix, BasisOf(g)) <==>
          MayBeApproved(reg, host, project, event, view))
      && g.operatorRequired == Ambiguous(reg, host, event, d.selectedFix)
  {
    JudgedBasis(reg, host, project, event, d, cooldown, view);
    MayBeApprovedIff(reg, host, project, event, view);
    ReasonsAreReasons(reg, host, project, event, d.selectedFix, view);
  }

  /** The gate's verdict on an event can be approved exactly if the event, and the files as seen, may be. */
  lemma GateApprovableIff(reg: Registry, host: Host, project: Project, event: Event, cooldown: CooldownResult,
                          view: View)
    ensures var g := EvaluateGate(reg, host, project, event, cooldown, view);
      && (IsApprovalCandidate(reg, event.eventType, g.selectedFix, BasisOf(g)) <==>
          MayBeApproved(reg, host, project, event, view))
      && (MayBeApproved(reg, host, project, event, view) ==>
          g.operatorRequired == Ambiguous(reg, host, event, FixForEvent(reg, event.eventType)))
  {
    RuntimePolicyValidIff(reg, project);
    if project.policy.policyEnabled && ValidPolicy(reg, RuntimePolicy(reg, project)) {
      var fixId := FixForEvent(reg, event.eventType);
      var d := Resolve(RuntimePolicy(reg, project), event.eventType, FULL_CONFIDENCE, fixId);
      GateUnderValidPolicy(reg, host, project, event, cooldown, view);
      RuntimeGrantsIff(reg, project, event.eventType);
      if d.autoAllowed {
        GrantedApprovableIff(reg, host, project, event, d, cooldown, view);
      }
    }
  }

  /** The call leaves a request that waits for a person and can be approved. */
  ghost predicate AsksForApproval(cfg: Setup, st: RunnerState, call: Call) {
    exists r :: Recovery(cfg, st, call).0.log == st.log + [r] && r.status == Pending && r.approvable
  }

  function MadeRequest(cfg: Setup, st: RunnerState, call: Call): Record {
    RequestFor(cfg.reg, call.event, Decide(cfg, st, call).1, call.newId)
  }

  lemma LogOfCall(cfg: Setup, st: RunnerState, call: Call)
    requires call.approvalId == "" && cfg.hasStore
    ensures Recovery(cfg, st, call).0.log ==
      if Decide(cfg, st, call).1.operatorRequired then st.log + [MadeRequest(cfg, st, call)] else st.log
  {
  }

  lemma AsksIff(cfg: Setup, st: RunnerState, call: Call)
    requires call.approvalId == "" && cfg.hasStore
    ensures AsksForApproval(cfg, st, call) <==>
      Decide(cfg, st, call).1.operatorRequired && MadeRequest(cfg, st, call).approvable
  {
    LogOfCall(cfg, st, call);
    var after, r := Recovery(cfg, st, call).0.log, MadeRequest(cfg, st, call);
    forall x | after == st.log + [x] ensures Decide(cfg, st, call).1.operatorRequired && x == r {
      assert after[|st.log|] == x;
    }
  }

  /** What the decision makes of an allowed verdict, or keeps of a blocked one. */
  lemma DecidedRequest(cfg: Setup, cooldown: Registries, log: Log, call: Call, verdict: GateResult)
    requires call.approvalId == ""
    requires verdict.allowed ==>
      !verdict.operatorRequired && verdict.reason == NoReason && verdict.precheck.reasons == []
    ensures var g := DecideFrom(cfg, cooldown, log, call, verdict).1;
      && (g.operatorRequired <==>
          verdict.operatorRequired || (verdict.allowed && cfg.project.policy.requireHumanApproval))
      && (g.operatorRequired ==> g.selectedFix == verdict.selectedFix && BasisOf(g) == BasisOf(verdict))
  {
  }

  /**
   When a call leaves a request that a person can approve: nothing but ambiguity stands against the fix of the event,
   an edit is actionable, none is refused, and either the evidence is ambiguous, or a person must approve and the gate
   would have let the event through.
   */
  lemma AsksForApprovalIff(cfg: Setup, st: RunnerState, call: Call)
    requires call.approvalId == "" && cfg.hasStore
    ensures AsksForApproval(cfg, st, call) <==>
      && MayBeApproved(cfg.reg, cfg.site.host, cfg.project, call.event, call.view)
      && (Ambiguous(cfg.reg, cfg.site.host, call.event, FixForEvent(cfg.reg, call.event.eventType))
          || (cfg.project.policy.requireHumanApproval && !cfg.project.policy.dryRun
              && Check(st.cooldown, LimitsOf(cfg.project), KeysOf(call.event, cfg.project), call.checkedAt).allowed))
  {
    var cooldown := Check(st.cooldown, LimitsOf(cfg.project), KeysOf(call.event, cfg.project), call.checkedAt);
    var verdict := FreshGate(cfg, st.cooldown, call);
    AsksIff(cfg, st, call);
    GateApprovableIff(cfg.reg, cfg.site.host, cfg.project, call.event, cooldown, call.view);
    GateAllowsIff(cfg.reg, cfg.site.host, cfg.project, call.event, cooldown, call.view);
    AllowedHasNoReasons(cfg, st.cooldown, call);
    DecidedRequest(cfg, st.cooldown, st.log, call, verdict);
  }

  lemma AllowedHasNoReasons(cfg: Setup, cooldown: Registries, call: Call)
    ensures var verdict := FreshGate(cfg, cooldown, call);
      verdict.allowed ==> !verdict.operatorRequired && verdict.reason == NoReason && verdict.precheck.reasons == []
  {
    var check := Check(cooldown, LimitsOf(cfg.project), KeysOf(call.event, cfg.project), call.checkedAt);
    if FreshGate(cfg, cooldown, call).allowed {
      AllowedGateIsAuthorized(cfg.reg, cfg.site.host, cfg.project, call.event, check, call.view);
      AllowedReasons(cfg.reg, cfg.site.host, cfg.project, call.event, check, call.view);
    }
  }

  lemma AllowedReasons(reg: Registry, host: Host, project: Project, event: Event, cooldown: CooldownResult, view: View)
    ensures var g := EvaluateGate(reg, host, project, event, cooldown, view);
      g.precheck.passed ==> g.precheck.reasons == []
  {
  }

  /**
   Where a person must approve and the gate lets the event through, the request that is left can be approved exactly
   if none of the planned edits is refused. The gate itself asks only for one that is actionable.
   */
  lemma AllowedAsksIff(cfg: Setup, st: RunnerState, call: Call)
    requires call.approvalId == "" && cfg.hasStore && cfg.project.policy.requireHumanApproval
    requires FreshGate(cfg, st.cooldown, call).allowed
    ensures AsksForApproval(cfg, st, call) <==>
      NoUnsafeEdit(cfg.reg, cfg.site.host, cfg.project, FixForEvent(cfg.reg, call.event.eventType), call.view)
    ensures Recovery(cfg, st, call).0.log == st.log + [MadeRequest(cfg, st, call)]
  {
    AsksForApprovalIff(cfg, st, call);
    GateAllowsIff(cfg.reg, cfg.site.host, cfg.project, call.event,
                  Check(st.cooldown, LimitsOf(cfg.project), KeysOf(call.event, cfg.project), call.checkedAt),
                  call.view);
    LogOfCall(cfg, st, call);
    AllowedHasNoReasons(cfg, st.cooldown, call);
    DecidedRequest(cfg, st.cooldown, st.log, call, FreshGate(cfg, st.cooldown, call));
  }

  // ----- the call that uses the approval -----

  /** The state once the request of the call is approved. */
  function ApprovedState(cfg: Setup, st: RunnerState, call: Call): RunnerState {
    var after := Recovery(cfg, st, call).0;
    after.(log := StoreStep(cfg.reg, after.log, Approve(call.newId)))
  }

  lemma ApprovedLog(reg: Registry, log: Log, r: Record)
    requires r.kind == Request && r.id !in Ids(log) && CanBeApproved(reg, r, Some(r.status))
    ensures var approved := StoreStep(reg, log + [r], Approve(r.id));
      FindRequest(approved, r.id) == Some(r) && CurrentStatus(approved, r.id) == Some(Approved)
  {
    FindAfterAppend(log, r, r.id);
    LatestAfterAppend(log, r, r.id);
    assert forall x | x in log :: x.id in Ids(log);
    var verdict := FollowUp(r, Verdict, Approved);
    FindAfterAppend(log + [r], verdict, r.id);
    LatestAfterAppend(log + [r], verdict, r.id);
  }

  lemma RequestCanBeApproved(reg: Registry, event: Event, gate: GateResult, id: string)
    requires RequestFor(reg, event, gate, id).approvable
    ensures CanBeApproved(reg, RequestFor(reg, event, gate, id), Some(RequestFor(reg, event, gate, id).status))
  {
  }

  /** A call that asks for approval leaves files, records and cooldowns alone. */
  lemma AskingKeeps(cfg: Setup, st: RunnerState, call: Call)
    requires call.approvalId == "" && cfg.hasStore && AsksForApproval(cfg, st, call)
    ensures var after := Recovery(cfg, st, call).0;
      after.cooldown == st.cooldown && after.disk == st.disk && after.log == st.log + [MadeRequest(cfg, st, call)]
    ensures MadeRequest(cfg, st, call).approvable
    ensures MadeRequest(cfg, st, call).selectedFix == FreshGate(cfg, st.cooldown, call).selectedFix
  {
    var verdict := FreshGate(cfg, st.cooldown, call);
    AsksIff(cfg, st, call);
    LogOfCall(cfg, st, call);
    AllowedHasNoReasons(cfg, st.cooldown, call);
    DecidedRequest(cfg, st.cooldown, st.log, call, verdict);
    FreshGateIsAuthorized(cfg, st.cooldown, call);
    DecideFromKeeps(cfg, st.cooldown, st.log, call, verdict);
    RecoveryCases(cfg, st, call);
  }

  lemma FitsOnceApproved(cfg: Setup, log: Log, event: Event, decided: GateResult, verdict: GateResult, id: string)
    requires cfg.hasStore && id !in Ids(log)
    requires RequestFor(cfg.reg, event, decided, id).approvable && decided.selectedFix == verdict.selectedFix
    ensures var r := RequestFor(cfg.reg, event, decided, id);
      ApprovalProblem(cfg, StoreStep(cfg.reg, log + [r], Approve(id)), event, verdict, id) == None
  {
    RequestCanBeApproved(cfg.reg, event, decided, id);
    ApprovedLog(cfg.reg, log, RequestFor(cfg.reg, event, decided, id));
  }

  lemma ApprovalFits(cfg: Setup, st: RunnerState, call: Call)
    requires call.approvalId == "" && cfg.hasStore && AsksForApproval(cfg, st, call) && call.newId !in Ids(st.log)
    ensures ApprovalProblem(cfg, ApprovedState(cfg, st, call).log, call.event, FreshGate(cfg, st.cooldown, call),
                            call.newId) == None
    ensures ApprovedState(cfg, st, call).cooldown == st.cooldown
  {
    AskingKeeps(cfg, st, call);
    FitsOnceApproved(cfg, st.log, call.event, Decide(cfg, st, call).1, FreshGate(cfg, st.cooldown, call), call.newId);
  }

  /**
   A call asks for approval, a person approves, and the call is repeated with the approval under the same
   circumstances. It executes exactly if the evidence is not ambiguous and the cooldowns allow the reservation: what
   was asked for because of ambiguity is approved in vain.
   */
  lemma ApprovedRepeatIff(cfg: Setup, st: RunnerState, call: Call)
    requires call.approvalId == "" && cfg.hasStore && AsksForApproval(cfg, st, call)
    requires call.newId != "" && call.newId !in Ids(st.log)
    ensures Recovery(cfg, ApprovedState(cfg, st, call), call.(approvalId := call.newId)).1.executed <==>
      && !Ambiguous(cfg.reg, cfg.site.host, call.event, FixForEvent(cfg.reg, call.event.eventType))
      && Check(st.cooldown, LimitsOf(cfg.project), KeysOf(call.event, cfg.project), call.reserveAt).allowed
  {
    var again := call.(approvalId := call.newId);
    ApprovalFits(cfg, st, call);
    AsksForApprovalIff(cfg, st, call);
    ExecutesIff(cfg, ApprovedState(cfg, st, call), again);
    assert FreshGate(cfg, st.cooldown, again) == FreshGate(cfg, st.cooldown, call);
  }
}
