/** The runtime gate: the precheck of a planned change and the final verdict for one event. */
module Gate {
  import opened Wrappers
  import opened ConfigTree
  import opened Semantics
  import opened Registry
  import opened Projects
  import opened Policy
  import opened Cooldown
  import opened Hosts

  datatype GateReason =
    | NoReason
    | FromPolicy(policyReason: PolicyReason)
    | PolicyDisabled
    | PolicyValidationFailed
    | FixSafetySpecMissing
    | FixEventTypeMismatch
    | ProjectDirMissing
    | ConfigMissing
    | InvalidJson
    | UnsafePath
    | TargetFieldMissing
    | UnsafeTransition
    | RollbackPlanUnavailable
    | AutoRecoverDisabled
    | EscalationRequired
    | TargetFixMismatch
    | NotSafeCandidate
    | NotInProjectAllowlist
    | ForbiddenAction
    | RemoteProjectDirMissing
    | InsufficientEvidence
    | AmbiguousEvidence
    | RollbackDisabled
    | NoOpAlreadySafe
    | NoActionableEdit
    | CooldownActive(blocked: seq<Scope>)
    | RollbackUnavailable
    | DryRun
    | HumanApprovalRequired
    | ApprovalStoreUnavailable
    | ApprovalRequestNotFound
    | ApprovalNotApproved
    | ApprovalFingerprintMismatch
    | ApprovalEventTypeMismatch
    | ApprovalFixMismatch
    | ApprovalNotApprovable

  datatype PlannedEdit = PlannedEdit(path: Path, oldValue: Option<Json>, target: Json, transition: Transition)

  datatype ReadStatus = ReadOk | RemoteDeferred | ReadUnsafePath | ReadMissing | ReadInvalid

  datatype ReadResult = ReadResult(status: ReadStatus, planned: seq<PlannedEdit>)

  datatype Precheck = Precheck(
    passed: bool,
    reasons: seq<GateReason>,
    planned: seq<PlannedEdit>,
    actionableCount: nat,
    unsafeCount: nat,
    noOp: bool,
    rollbackPlanAvailable: bool)

  datatype GateResult = GateResult(
    eventType: string,
    fingerprint: string,
    layer: Layer,
    candidateFix: string,
    selectedFix: string,
    dryRun: bool,
    wouldExecute: bool,
    allowed: bool,
    autoAllowed: bool,
    operatorRequired: bool,
    auditRequired: bool,
    reason: GateReason,
    precheck: Precheck,
    cooldown: CooldownResult,
    rollbackAvailable: bool)
  {
    predicate IsCandidate() {
      autoAllowed && selectedFix != ""
    }
  }

  /** The edits planned for the candidates that exist in the file, in the order of the specification. */
  function Plan(data: Json, candidates: seq<FieldCandidate>, probe: Probe): seq<PlannedEdit> {
    if candidates == [] then []
    else
      var c := candidates[0];
      var rest := Plan(data, candidates[1..], probe);
      match Lookup(data, c.path)
      case Some(value) =>
        [PlannedEdit(c.path, Some(value), c.target, LocalTransition(c.rule, data, value, c.target, probe))] + rest
      case None => rest
  }

  function DeferredEdits(candidates: seq<FieldCandidate>): (r: seq<PlannedEdit>)
    ensures |r| == |candidates|
    ensures forall i | 0 <= i < |r| :: r[i].transition == DeferredTransition()
  {
    seq(|candidates|, i requires 0 <= i < |candidates| =>
      PlannedEdit(candidates[i].path, None, candidates[i].target, DeferredTransition()))
  }

  lemma {:induction false} AllDeferred(planned: seq<PlannedEdit>)
    requires forall i | 0 <= i < |planned| :: planned[i].transition == DeferredTransition()
    ensures CountActionable(planned) == |planned| && CountUnsafe(planned) == 0 && CountNoOp(planned) == 0
  {
    if planned != [] {
      AllDeferred(planned[1..]);
    }
  }

  /** Of a file that cannot be read every candidate is planned, and counts as actionable. */
  function DeferredPlan(candidates: seq<FieldCandidate>): (r: seq<PlannedEdit>)
    ensures |r| == |candidates| == CountActionable(r)
    ensures CountUnsafe(r) == 0 && CountNoOp(r) == 0
    ensures forall i | 0 <= i < |r| :: r[i].path == candidates[i].path && r[i].target == candidates[i].target
    ensures forall i | 0 <= i < |r| ::
              r[i].transition.reason == SemanticCheckDeferred && r[i].transition.safe && r[i].oldValue.None?
  {
    AllDeferred(DeferredEdits(candidates));
    DeferredEdits(candidates)
  }

  function ConfigPathFor(host: Host, project: Project, spec: SafeSpec): string {
    host.resolve(project.EffectiveDir(), spec.configPath)
  }

  function ReadConfig(host: Host, project: Project, spec: SafeSpec, view: View): ReadResult {
    var path := ConfigPathFor(host, project, spec);
    if project.isRemote && path !in view.files then ReadResult(RemoteDeferred, DeferredPlan(spec.candidates))
    else if !host.inside(path, project.EffectiveDir()) then ReadResult(ReadUnsafePath, [])
    else if path !in view.files then ReadResult(ReadMissing, [])
    else match host.parse(view.files[path])
      case None => ReadResult(ReadInvalid, [])
      case Some(data) => ReadResult(ReadOk, Plan(data, spec.candidates, view.probe))
  }

  function CountActionable(planned: seq<PlannedEdit>): nat {
    if planned == [] then 0
    else (if planned[0].transition.actionable then 1 else 0) + CountActionable(planned[1..])
  }

  function CountUnsafe(planned: seq<PlannedEdit>): nat {
    if planned == [] then 0
    else (if planned[0].transition.status == Unsafe then 1 else 0) + CountUnsafe(planned[1..])
  }

  function CountNoOp(planned: seq<PlannedEdit>): nat {
    if planned == [] then 0
    else (if planned[0].transition.noOp then 1 else 0) + CountNoOp(planned[1..])
  }

  function When(condition: bool, reason: GateReason): seq<GateReason> {
    if condition then [reason] else []
  }

  function StatusReason(status: ReadStatus): seq<GateReason> {
    match status
    case ReadMissing => [ConfigMissing]
    case ReadInvalid => [InvalidJson]
    case ReadUnsafePath => [UnsafePath]
    case _ => []
  }

  function ChangeReasons(project: Project, eventType: string, spec: SafeSpec, read: ReadResult): seq<GateReason> {
    When(spec.eventType != eventType, FixEventTypeMismatch)
    + When(project.EffectiveDir() == "", ProjectDirMissing)
    + StatusReason(read.status)
    + When(read.status == ReadOk && read.planned == [], TargetFieldMissing)
    + When(CountUnsafe(read.planned) > 0 && CountActionable(read.planned) == 0, UnsafeTransition)
    + When(!project.policy.rollbackOnFailure, RollbackPlanUnavailable)
  }

  /** The precheck of the change itself, before the project's own settings are consulted. */
  function BuildPrecheck(reg: Registry, host: Host, project: Project, eventType: string, fixId: string,
                         view: View): Precheck {
    match SpecByFix(reg.safe, fixId)
    case None => Precheck(false, [FixSafetySpecMissing], [], 0, 0, false, false)
    case Some(spec) =>
      var read := ReadConfig(host, project, spec, view);
      var actionable := CountActionable(read.planned);
      var unsafe := CountUnsafe(read.planned);
      var reasons := ChangeReasons(project, eventType, spec, read);
      Precheck(reasons == [], reasons, read.planned, actionable, unsafe,
               CountNoOp(read.planned) > 0 && actionable == 0 && unsafe == 0, project.policy.rollbackOnFailure)
  }

  predicate JoinedNonEmpty(words: seq<string>) {
    |words| >= 2 || (|words| == 1 && words[0] != "")
  }

  predicate HasEvidenceText(event: Event) {
    event.excerpt != "" || event.summary != "" || event.signature != "" || JoinedNonEmpty(event.keywords)
  }

  predicate Fires(rule: AmbiguityRule, host: Host, event: Event, fixId: string) {
    fixId in rule.fixes &&
    match rule
    case Overlap(_, first, second) => host.matches(event, first) && host.matches(event, second)
    case MissingContext(_, found, context) => host.matches(event, found) && !host.matches(event, context)
  }

  /** The evidence points at more than one domain, so a person must look at it. */
  predicate Ambiguous(reg: Registry, host: Host, event: Event, fixId: string) {
    fixId != "" && HasEvidenceText(event) && exists rule | rule in reg.ambiguity :: Fires(rule, host, event, fixId)
  }

  predicate NamesForbidden(reg: Registry, text: string) {
    Normalize(text) != "" && exists f | f in reg.forbidden ::
        Normalize(f) != "" && Contains(Normalize(text), Normalize(f))
  }

  function SettingReasons(reg: Registry, project: Project, event: Event, fixId: string): seq<GateReason> {
    var expected := SafeFixForEvent(reg, event.eventType);
    When(!project.policy.autoRecover, AutoRecoverDisabled)
    + When(event.issueType in project.policy.escalationRequired, EscalationRequired)
    + When(expected != "" && fixId != expected, TargetFixMismatch)
    + When(expected == "", NotSafeCandidate)
    + When(fixId != "" && fixId !in project.policy.allowAutoApply, NotInProjectAllowlist)
  }

  function EvidenceReasons(reg: Registry, project: Project, event: Event, fixId: string): seq<GateReason> {
    When(NamesForbidden(reg, fixId) || NamesForbidden(reg, DescriptionOf(reg, fixId)), ForbiddenAction)
    + When(project.isRemote && project.remoteProjectDir == "", RemoteProjectDirMissing)
    + When(!project.isRemote && project.projectDir == "", ProjectDirMissing)
    + When(event.excerpt == "" && event.summary == "" && event.keywords == [], InsufficientEvidence)
    + When(!project.policy.rollbackOnFailure, RollbackDisabled)
  }

  function RunPrecheck(reg: Registry, host: Host, project: Project, event: Event, fixId: string, view: View): Precheck {
    var base := BuildPrecheck(reg, host, project, event.eventType, fixId, view);
    var reasons :=
      When(Ambiguous(reg, host, event, fixId), AmbiguousEvidence)
      + base.reasons
      + SettingReasons(reg, project, event, fixId)
      + EvidenceReasons(reg, project, event, fixId);
    base.(passed := reasons == [], reasons := reasons)
  }

  function FirstFailure(precheck: Precheck, cooldown: CooldownResult, rollbackAvailable: bool): GateReason {
    if !precheck.passed && precheck.reasons != [] then precheck.reasons[0]
    else if precheck.noOp then NoOpAlreadySafe
    else if precheck.actionableCount == 0 then NoActionableEdit
    else if !cooldown.allowed then CooldownActive(cooldown.blocked)
    else if !rollbackAvailable then RollbackUnavailable
    else NoReason
  }

  function BlockedGate(reg: Registry, event: Event, candidate: string, reason: GateReason,
                       cooldown: CooldownResult): GateResult {
    GateResult(event.eventType, event.fingerprint, Disabled, candidate, "", true, false, false, false, true, true,
               reason, Precheck(false, [], [], 0, 0, false, false), cooldown, false)
  }

  /** The confidence of an event that carries none. */
  const FULL_CONFIDENCE := 1.0

  function EvaluateGate(reg: Registry, host: Host, project: Project, event: Event, cooldown: CooldownResult,
                        view: View): GateResult {
    var candidate := FixForEvent(reg, event.eventType);
    if !project.policy.policyEnabled then BlockedGate(reg, event, candidate, PolicyDisabled, cooldown)
    else if !ValidPolicy(reg, RuntimePolicy(reg, project)) then
      BlockedGate(reg, event, candidate, PolicyValidationFailed, cooldown)
    else
      var d := Resolve(RuntimePolicy(reg, project), event.eventType, FULL_CONFIDENCE, candidate);
      Judge(reg, host, project, event, candidate, d, cooldown, view)
  }

  /** The verdict once the policy has decided. */
  function Judge(reg: Registry, host: Host, project: Project, event: Event, candidate: string, d: Decision,
                 cooldown: CooldownResult, view: View): GateResult {
    var precheck := RunPrecheck(reg, host, project, event, d.selectedFix, view);
    var rollbackAvailable :=
      project.policy.rollbackOnFailure && IsSafeFix(reg, d.selectedFix) && precheck.rollbackPlanAvailable;
    var firstReason :=
      if d.reason != Unblocked then FromPolicy(d.reason) else FirstFailure(precheck, cooldown, rollbackAvailable);
    var ambiguous := AmbiguousEvidence in precheck.reasons;
    var operatorRequired := d.operatorRequired || ambiguous;
    var allowed :=
      && d.autoAllowed && !d.dryRun
      && precheck.passed && precheck.actionableCount > 0 && !precheck.noOp
      && cooldown.allowed && rollbackAvailable && !operatorRequired;
    var reason := if d.autoAllowed && d.dryRun && firstReason == NoReason then DryRun else firstReason;
    var layer :=
      if d.layer == SafeAutoRecover && ((operatorRequired && ambiguous) || !d.autoAllowed) then ManualEscalation
      else d.layer;
    GateResult(event.eventType, event.fingerprint, layer, candidate, d.selectedFix, d.dryRun, allowed, allowed,
               d.autoAllowed, operatorRequired, d.auditRequired, reason, precheck, cooldown, rollbackAvailable)
  }
}
