/** Recovery policies: validation, the policy built for a project, and the decision for one event. */
module Policy {
  import opened Wrappers
  import opened Registry
  import opened Projects

  datatype EventPolicy = EventPolicy(
    layer: Layer,
    risk: Risk,
    confidenceRequired: real,
    allowedFixIds: seq<string>,
    forbidden: seq<string>,
    requirePrecheck: bool,
    requireRollback: bool,
    requireConfirmation: bool,
    auditRequired: bool,
    fallback: Layer,
    dryRun: Option<bool>)

  /** `allowlist` maps an allowed action to the other texts that stand in its entry. */
  datatype RecoveryPolicy = RecoveryPolicy(
    defaultStrategy: Layer,
    unknownStrategy: Layer,
    dryRunDefault: bool,
    eventPolicies: map<string, EventPolicy>,
    allowlist: map<string, seq<string>>,
    forbidden: seq<string>,
    auditRequired: bool)

  datatype PolicyReason =
    | Unblocked
    | CandidateForbidden
    | UnknownEventType
    | EventPolicyDisabled
    | EventPolicyDiagnoseOnly
    | EventPolicyManualEscalation
    | GuardedDryRunOnly
    | ConfidenceBelowRequired
    | CandidateMissing
    | CandidateNotAllowedForEvent
    | CandidateNotInActionAllowlist

  datatype Decision = Decision(
    layer: Layer,
    autoAllowed: bool,
    dryRun: bool,
    selectedFix: string,
    reason: PolicyReason,
    operatorRequired: bool,
    auditRequired: bool)

  predicate IsAuto(layer: Layer) {
    layer == SafeAutoRecover || layer == GuardedAutoRecover
  }

  function EffectiveDryRun(policy: RecoveryPolicy, ep: EventPolicy): bool {
    match ep.dryRun
    case Some(d) => d
    case None => policy.dryRunDefault
  }

  predicate Spells(text: string, forbidden: seq<string>) {
    exists f | f in forbidden :: Normalize(f) == Normalize(text)
  }

  predicate MatchesForbidden(candidate: string, forbidden: seq<string>) {
    candidate != "" && Spells(candidate, forbidden)
  }

  /** No text in the allowlist, key or entry, spells a forbidden action. */
  predicate AllowlistClean(policy: RecoveryPolicy) {
    forall k | k in policy.allowlist ::
      !Spells(k, policy.forbidden) && forall t | t in policy.allowlist[k] :: !Spells(t, policy.forbidden)
  }

  predicate MatchesRegistry(reg: Registry, eventType: string, ep: EventPolicy) {
    match DomainFor(reg, eventType)
    case None => false
    case Some(d) => d.layer == SafeAutoRecover && ep.allowedFixIds == [d.fixId]
  }

  predicate ValidEventPolicy(reg: Registry, policy: RecoveryPolicy, eventType: string, ep: EventPolicy) {
    && 0.0 <= ep.confidenceRequired <= 1.0
    && !IsAuto(ep.fallback)
    && !(eventType == "unknown" && IsAuto(ep.layer))
    && (ep.layer == Disabled ==> ep.allowedFixIds == [])
    && (ep.layer == SafeAutoRecover ==>
        && MatchesRegistry(reg, eventType, ep)
        && ep.allowedFixIds != [] && ep.requirePrecheck && ep.requireRollback && ep.risk == Low && ep.auditRequired)
    && (ep.layer == GuardedAutoRecover ==>
        MatchesRegistry(reg, eventType, ep) && EffectiveDryRun(policy, ep) && ep.auditRequired)
  }

  /** The policy passes validation; otherwise the program raises a PolicyValidationError. */
  predicate ValidPolicy(reg: Registry, policy: RecoveryPolicy) {
    && !IsAuto(policy.defaultStrategy)
    && !IsAuto(policy.unknownStrategy)
    && AllowlistClean(policy)
    && forall et | et in policy.eventPolicies :: ValidEventPolicy(reg, policy, et, policy.eventPolicies[et])
  }

  function NonAuto(layer: Layer, reason: PolicyReason, audit: bool, operator: bool): Decision {
    Decision(layer, false, true, "", reason, operator, audit)
  }

  /** The layers for which a person must act unless the caller says otherwise. */
  predicate NeedsOperator(layer: Layer) {
    layer == ManualEscalation || layer == Disabled || layer == GuardedAutoRecover
  }

  function Fallback(ep: EventPolicy, reason: PolicyReason): Decision {
    NonAuto(ep.fallback, reason, ep.auditRequired, NeedsOperator(ep.fallback))
  }

  /** The decision under a policy that passed validation. */
  function Resolve(policy: RecoveryPolicy, eventType: string, confidence: real, candidate: string): Decision {
    var known := eventType in policy.eventPolicies;
    var forbidden := policy.forbidden + if known then policy.eventPolicies[eventType].forbidden else [];
    if MatchesForbidden(candidate, forbidden) then NonAuto(Disabled, CandidateForbidden, true, true)
    else if !known then
      NonAuto(policy.unknownStrategy, UnknownEventType, policy.auditRequired, NeedsOperator(policy.unknownStrategy))
    else
      var ep := policy.eventPolicies[eventType];
      match ep.layer
      case Disabled => NonAuto(Disabled, EventPolicyDisabled, ep.auditRequired, true)
      case DiagnoseOnly => NonAuto(DiagnoseOnly, EventPolicyDiagnoseOnly, ep.auditRequired, false)
      case ManualEscalation => NonAuto(ManualEscalation, EventPolicyManualEscalation, ep.auditRequired, true)
      case GuardedAutoRecover => NonAuto(GuardedAutoRecover, GuardedDryRunOnly, ep.auditRequired, true)
      case SafeAutoRecover =>
        if confidence < ep.confidenceRequired then Fallback(ep, ConfidenceBelowRequired)
        else if candidate == "" then Fallback(ep, CandidateMissing)
        else if candidate !in ep.allowedFixIds then Fallback(ep, CandidateNotAllowedForEvent)
        else if policy.allowlist != map[] && candidate !in policy.allowlist then
          Fallback(ep, CandidateNotInActionAllowlist)
        else
          Decision(SafeAutoRecover, true, EffectiveDryRun(policy, ep), candidate, Unblocked,
                   ep.requireConfirmation, ep.auditRequired)
  }

  lemma ForbiddenInMore(candidate: string, forbidden: seq<string>, more: seq<string>)
    requires !MatchesForbidden(candidate, forbidden + more)
    ensures !MatchesForbidden(candidate, forbidden) && !MatchesForbidden(candidate, more)
  {
    assert forall f | f in forbidden || f in more :: f in forbidden + more;
  }

  lemma ResolveByEventPolicy(policy: RecoveryPolicy, eventType: string, confidence: real, candidate: string)
    ensures var d := Resolve(policy, eventType, confidence, candidate);
      && (d.autoAllowed <==> d.reason == Unblocked)
      && (!d.autoAllowed ==> d.dryRun && d.selectedFix == "")
      && (d.autoAllowed ==>
          && eventType in policy.eventPolicies
          && policy.eventPolicies[eventType].layer == SafeAutoRecover
          && candidate == d.selectedFix != ""
          && candidate in policy.eventPolicies[eventType].allowedFixIds
          && d.layer == SafeAutoRecover
          && d.auditRequired == policy.eventPolicies[eventType].auditRequired
          && d.operatorRequired == policy.eventPolicies[eventType].requireConfirmation
          && d.dryRun == EffectiveDryRun(policy, policy.eventPolicies[eventType])
          && !MatchesForbidden(candidate, policy.forbidden)
          && !MatchesForbidden(candidate, policy.eventPolicies[eventType].forbidden)
          && (policy.allowlist == map[] || candidate in policy.allowlist))
  {
    if Resolve(policy, eventType, confidence, candidate).autoAllowed {
      ForbiddenInMore(candidate, policy.forbidden, policy.eventPolicies[eventType].forbidden);
    }
  }

  /**
   Whatever valid policy an operator writes, automatic recovery is granted only for an event whose registry
   domain is safe, and only for that domain's own fix, which no forbidden action names.
   */
  lemma ResolveGrantsOnlyRegistryFix(reg: Registry, policy: RecoveryPolicy, eventType: string, confidence: real,
                                     candidate: string)
    requires ValidPolicy(reg, policy)
    requires Resolve(policy, eventType, confidence, candidate).autoAllowed
    ensures eventType != "unknown"
    ensures DomainFor(reg, eventType).Some? && DomainFor(reg, eventType).value.layer == SafeAutoRecover
    ensures var d := Resolve(policy, eventType, confidence, candidate);
      && candidate == d.selectedFix == FixForEvent(reg, eventType) != ""
      && d.layer == SafeAutoRecover && d.auditRequired
      && !MatchesForbidden(candidate, policy.forbidden)
      && (policy.allowlist == map[] || candidate in policy.allowlist)
  {
    ResolveByEventPolicy(policy, eventType, confidence, candidate);
    assert ValidEventPolicy(reg, policy, eventType, policy.eventPolicies[eventType]);
  }

  function SafePolicy(fixId: string, dryRun: bool): EventPolicy {
    EventPolicy(SafeAutoRecover, Low, 0.8, [fixId], [], true, true, false, true, ManualEscalation, Some(dryRun))
  }

  function ManualPolicy(risk: Risk): EventPolicy {
    EventPolicy(ManualEscalation, risk, 0.0, [], [], false, false, true, true, ManualEscalation, None)
  }

  function DiagnosePolicy(risk: Risk): EventPolicy {
    EventPolicy(DiagnoseOnly, risk, 0.0, [], [], false, false, false, true, ManualEscalation, None)
  }

  function PolicyForDomain(d: DomainSpec, dryRun: bool): EventPolicy {
    match d.layer
    case SafeAutoRecover => SafePolicy(d.fixId, dryRun)
    case ManualEscalation => ManualPolicy(d.risk)
    case DiagnoseOnly => DiagnosePolicy(d.risk)
    case _ => ManualPolicy(Unknown)
  }

  /** The policy the gate builds from the registry and the project's own settings. */
  function RuntimePolicy(reg: Registry, project: Project): RecoveryPolicy {
    var dryRun := project.policy.dryRun;
    RecoveryPolicy(
      ManualEscalation,
      DiagnoseOnly,
      dryRun,
      map d | d in Domains(reg) :: d.eventType := PolicyForDomain(DomainFor(reg, d.eventType).value, dryRun),
      map fix | fix in project.policy.allowAutoApply :: fix := reg.allowNote,
      reg.forbidden,
      true)
  }

  lemma RuntimeEventPolicy(reg: Registry, project: Project, eventType: string)
    ensures var policy := RuntimePolicy(reg, project);
      && (eventType in policy.eventPolicies <==> DomainFor(reg, eventType).Some?)
      && (eventType in policy.eventPolicies ==>
          policy.eventPolicies[eventType] == PolicyForDomain(DomainFor(reg, eventType).value, project.policy.dryRun))
  {
  }

  /**
   What the policy of a project says: safe domains recover with their own fix, after a precheck and with a rollback,
   manual and malformed ones need a person, diagnosed ones nobody, and everything is audited.
   */
  lemma RuntimePolicyIs(reg: Registry, project: Project)
    ensures var policy := RuntimePolicy(reg, project);
      && policy.defaultStrategy == ManualEscalation && policy.unknownStrategy == DiagnoseOnly
      && policy.allowlist.Keys == (set fix | fix in project.policy.allowAutoApply)
      && (forall fix | fix in policy.allowlist :: policy.allowlist[fix] == reg.allowNote)
      && policy.forbidden == reg.forbidden
    ensures var policy := RuntimePolicy(reg, project);
      forall eventType | eventType in policy.eventPolicies ::
        var domain, entry := DomainFor(reg, eventType).value, policy.eventPolicies[eventType];
        var safe, diagnosed := domain.layer == SafeAutoRecover, domain.layer == DiagnoseOnly;
        && entry.layer == (if safe || diagnosed then domain.layer else ManualEscalation)
        && entry.risk == (if safe then Low else if diagnosed || domain.layer == ManualEscalation then domain.risk
                          else Unknown)
        && entry.allowedFixIds == (if safe then [domain.fixId] else [])
        && entry.confidenceRequired == (if safe then 0.8 else 0.0)
        && entry.dryRun == (if safe then Some(project.policy.dryRun) else None)
        && entry.requirePrecheck == entry.requireRollback == safe
        && entry.requireConfirmation == (!safe && !diagnosed)
        && entry.auditRequired && entry.forbidden == [] && entry.fallback == ManualEscalation
  {
    var policy := RuntimePolicy(reg, project);
    forall eventType | eventType in policy.eventPolicies
      ensures policy.eventPolicies[eventType] ==
          PolicyForDomain(DomainFor(reg, eventType).value, project.policy.dryRun)
    {
      RuntimeEventPolicy(reg, project, eventType);
    }
  }

  /** The event policies are those of the registry's domains, and the two default layers are not automatic. */
  ghost predicate FollowsRegistry(reg: Registry, policy: RecoveryPolicy, dryRun: bool) {
    && !IsAuto(policy.defaultStrategy) && !IsAuto(policy.unknownStrategy)
    && (forall et :: et in policy.eventPolicies <==> DomainFor(reg, et).Some?)
    && forall et | et in policy.eventPolicies ::
        policy.eventPolicies[et] == PolicyForDomain(DomainFor(reg, et).value, dryRun)
  }

  predicate RecoversUnknown(reg: Registry) {
    match DomainFor(reg, "unknown")
    case Some(d) => d.layer == SafeAutoRecover
    case None => false
  }

  lemma DomainPolicyValidIff(reg: Registry, policy: RecoveryPolicy, eventType: string, d: DomainSpec, dryRun: bool)
    requires DomainFor(reg, eventType) == Some(d)
    ensures ValidEventPolicy(reg, policy, eventType, PolicyForDomain(d, dryRun)) <==>
      !(eventType == "unknown" && d.layer == SafeAutoRecover)
  {
  }

  lemma FollowingPolicyValidIff(reg: Registry, policy: RecoveryPolicy, dryRun: bool)
    requires FollowsRegistry(reg, policy, dryRun)
    ensures ValidPolicy(reg, policy) <==> AllowlistClean(policy) && !RecoversUnknown(reg)
  {
    forall et | et in policy.eventPolicies
      ensures ValidEventPolicy(reg, policy, et, policy.eventPolicies[et]) <==>
        !(et == "unknown" && RecoversUnknown(reg))
    {
      DomainPolicyValidIff(reg, policy, et, DomainFor(reg, et).value, dryRun);
    }
    assert RecoversUnknown(reg) ==> "unknown" in policy.eventPolicies;
  }

  lemma RuntimeFollowsRegistry(reg: Registry, project: Project)
    ensures FollowsRegistry(reg, RuntimePolicy(reg, project), project.policy.dryRun)
  {
  }

  /**
   A runtime policy fails validation for two causes only: a text of the project's allowlist spells a
   forbidden action, or the registry makes the event type "unknown" recoverable.
   */
  lemma RuntimePolicyValidIff(reg: Registry, project: Project)
    ensures ValidPolicy(reg, RuntimePolicy(reg, project)) <==>
      AllowlistClean(RuntimePolicy(reg, project)) && !RecoversUnknown(reg)
  {
    RuntimeFollowsRegistry(reg, project);
    FollowingPolicyValidIff(reg, RuntimePolicy(reg, project), project.policy.dryRun);
  }

  // ----- any policy -----

  /** Some text of the list reads like the candidate once case and white space are evened out. */
  ghost predicate Named(candidate: string, texts: seq<string>) {
    exists f | f in texts :: Normalize(f) == Normalize(candidate)
  }

  function Entry(policy: RecoveryPolicy, eventType: string): Option<EventPolicy> {
    if eventType in policy.eventPolicies then Some(policy.eventPolicies[eventType]) else None
  }

  lemma ForbiddenIff(policy: RecoveryPolicy, eventType: string, candidate: string)
    ensures var forbidden := policy.forbidden
        + if eventType in policy.eventPolicies then policy.eventPolicies[eventType].forbidden else [];
      MatchesForbidden(candidate, forbidden) <==>
        candidate != "" && (Named(candidate, policy.forbidden)
                            || (Entry(policy, eventType).Some?
                                && Named(candidate, Entry(policy, eventType).value.forbidden)))
  {
    var own := if eventType in policy.eventPolicies then policy.eventPolicies[eventType].forbidden else [];
    assert forall f :: f in policy.forbidden + own <==> f in policy.forbidden || f in own;
  }

  /** What a safe entry objects to, in the order in which it asks. */
  function SafeObjection(policy: RecoveryPolicy, ep: EventPolicy, confidence: real, candidate: string): PolicyReason {
    if ep.confidenceRequired > confidence then ConfidenceBelowRequired
    else if candidate == "" then CandidateMissing
    else if candidate !in ep.allowedFixIds then CandidateNotAllowedForEvent
    else if policy.allowlist.Keys != {} && candidate !in policy.allowlist.Keys then CandidateNotInActionAllowlist
    else Unblocked
  }

  /** Which reason a decision gives, under any policy. */
  lemma ReasonIff(policy: RecoveryPolicy, eventType: string, confidence: real, candidate: string)
    ensures var reason := Resolve(policy, eventType, confidence, candidate).reason;
      var entry := Entry(policy, eventType);
      var forbidden := candidate != "" && (Named(candidate, policy.forbidden)
                                           || (entry.Some? && Named(candidate, entry.value.forbidden)));
      if forbidden then reason == CandidateForbidden
      else if entry.None? then reason == UnknownEventType
      else
        && (reason == EventPolicyDisabled <==> entry.value.layer == Disabled)
        && (reason == EventPolicyDiagnoseOnly <==> entry.value.layer == DiagnoseOnly)
        && (reason == EventPolicyManualEscalation <==> entry.value.layer == ManualEscalation)
        && (reason == GuardedDryRunOnly <==> entry.value.layer == GuardedAutoRecover)
        && (entry.value.layer == SafeAutoRecover ==>
            reason == SafeObjection(policy, entry.value, confidence, candidate))
  {
    ForbiddenIff(policy, eventType, candidate);
    assert policy.allowlist != map[] <==> policy.allowlist.Keys != {};
  }

  /** The layer of a decision, whether it needs a person and whether it is audited, by its reason. */
  lemma LayerOfReason(policy: RecoveryPolicy, eventType: string, confidence: real, candidate: string)
    ensures var d := Resolve(policy, eventType, confidence, candidate);
      var entry := Entry(policy, eventType);
      match d.reason
      case CandidateForbidden => d.layer == Disabled && d.operatorRequired && d.auditRequired
      case UnknownEventType =>
        && d.layer == policy.unknownStrategy && d.auditRequired == policy.auditRequired
        && (d.operatorRequired <==> d.layer in {ManualEscalation, Disabled, GuardedAutoRecover})
      case EventPolicyDisabled => d.layer == Disabled && d.operatorRequired
      case EventPolicyDiagnoseOnly => d.layer == DiagnoseOnly && !d.operatorRequired
      case EventPolicyManualEscalation => d.layer == ManualEscalation && d.operatorRequired
      case GuardedDryRunOnly => d.layer == GuardedAutoRecover && d.operatorRequired
      case Unblocked => d.layer == SafeAutoRecover && d.autoAllowed
      case _ =>
        && entry.Some? && d.layer == entry.value.fallback
        && (d.operatorRequired <==> d.layer in {ManualEscalation, Disabled, GuardedAutoRecover})
    ensures var d := Resolve(policy, eventType, confidence, candidate);
      d.reason != CandidateForbidden && d.reason != UnknownEventType ==>
        Entry(policy, eventType).Some? && d.auditRequired == Entry(policy, eventType).value.auditRequired
  {
  }

  lemma AllowlistCleanIff(policy: RecoveryPolicy)
    ensures AllowlistClean(policy) <==>
      forall k | k in policy.allowlist :: !Named(k, policy.forbidden)
        && forall t | t in policy.allowlist[k] :: !Named(t, policy.forbidden)
  {
  }

  /**
   A policy is valid exactly if neither its default nor its answer to unknown events is automatic, its allowlist is
   clean, and every entry keeps the rules of its layer: a fallback that is not automatic and a confidence that is one,
   no automatic layer for the event type "unknown", no fixes when disabled, and, for the automatic layers, the
   registry's own fix for a safe domain, audited, with precheck and rollback at low risk, or guarded by a dry run.
   */
  lemma ValidPolicyIff(reg: Registry, policy: RecoveryPolicy)
    ensures ValidPolicy(reg, policy) <==>
      && policy.defaultStrategy != SafeAutoRecover && policy.defaultStrategy != GuardedAutoRecover
      && policy.unknownStrategy != SafeAutoRecover && policy.unknownStrategy != GuardedAutoRecover
      && AllowlistClean(policy)
      && forall et | et in policy.eventPolicies ::
          var ep := policy.eventPolicies[et];
          var own := DomainFor(reg, et).Some? && DomainFor(reg, et).value.layer == SafeAutoRecover
                     && ep.allowedFixIds == [DomainFor(reg, et).value.fixId];
          && 0.0 <= ep.confidenceRequired && ep.confidenceRequired <= 1.0
          && ep.fallback != SafeAutoRecover && ep.fallback != GuardedAutoRecover
          && match ep.layer
             case Disabled => ep.allowedFixIds == []
             case SafeAutoRecover =>
               et != "unknown" && own && ep.requirePrecheck && ep.requireRollback && ep.risk == Low && ep.auditRequired
             case GuardedAutoRecover =>
               et != "unknown" && own && ep.auditRequired
               && (if ep.dryRun.Some? then ep.dryRun.value else policy.dryRunDefault)
             case _ => true
  {
  }
}
