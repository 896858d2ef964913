/** Concrete calls around one approval: it is used twice, and one that a person must approve but cannot. */
module ApprovalWitnesses {
  import opened Wrappers
  import opened ConfigTree
  import opened Semantics
  import opened Registry
  import opened Projects
  import opened Hosts
  import opened Policy
  import opened Cooldown
  import opened Gate
  import opened GateTheorems
  import opened Executor
  import opened ExecutorTheorems
  import opened Approvals
  import opened Runner
  import opened RunnerTheorems
  import opened CooldownRuns
  import opened ApprovalRuns
  import opened ApprovalFlow
  import opened Witnesses
  import opened RunnerWitnesses

  function StoreSetup(site: Site): Setup {
    SetupOn(site, false).(hasStore := true)
  }

  /** A request and its approval. */
  const LOG: Log := [
    Record(Request, "a", Pending, true, true, "e", EVENT.fingerprint, "f", None),
    Record(Verdict, "a", Approved, true, true, "e", EVENT.fingerprint, "f", None)]

  /** A call with the approval, made at time `t`, on the files as they are; the rerun fails. */
  function ApprovedCall(seen: map<string, Bytes>, t: real): Call {
    CallOn(seen, RerunFails, false).(approvalId := "a", checkedAt := t, reserveAt := t, stampAt := t)
  }

  lemma LogFits()
    ensures FindRequest(LOG, "a") == Some(LOG[0]) && CurrentStatus(LOG, "a") == Some(Approved)
  {
  }

  /** With the approval, and the cooldowns over, the call executes. */
  lemma ApprovedExecutes(site: Site, cooldown: Registries, disk: Disk, l: bool, t: real)
    requires Machine(site) && Holds(site, disk.files, true, l)
    requires var cfg := StoreSetup(site); Check(cooldown, LimitsOf(cfg.project), KeysOf(EVENT, cfg.project), t).allowed
    ensures Recovery(StoreSetup(site), RunnerState(cooldown, LOG, disk), ApprovedCall(disk.files, t)).1.executed
  {
    var cfg, st, call := StoreSetup(site), RunnerState(cooldown, LOG, disk), ApprovedCall(disk.files, t);
    Lookups();
    LogFits();
    EventIsEligible(site, false);
    LocalIsActionable(site, disk.files, l, call.probe);
    GateAllowsIff(cfg.reg, site.host, cfg.project, EVENT,
                  Check(cooldown, LimitsOf(cfg.project), KeysOf(EVENT, cfg.project), t), call.view);
    FreshGateIsAuthorized(cfg, cooldown, call);
    ExecutesIff(cfg, st, call);
  }

  lemma ApprovedIsStable(site: Site, cooldown: Registries, disk: Disk, l: bool, t: real)
    requires Machine(site) && Holds(site, disk.files, true, l)
    ensures var cfg, st, call := StoreSetup(site), RunnerState(cooldown, LOG, disk), ApprovedCall(disk.files, t);
      && TrimmedIds(cfg.reg.safe) && Stable(cfg, st, call)
      && SpecByFix(cfg.reg.safe, FixForEvent(cfg.reg, call.event.eventType)) == Some(SPEC)
      && OpOf(cfg, disk, call) == Op(SPEC, call.probe, "s") && ConfigOf(cfg, disk, call) == "c.json"
  {
    Lookups();
    OpIs(site, false, disk, CallOn(disk.files, RerunFails, false));
  }

  /** The rerun fails, so the call ends with the file as it was. */
  lemma ApprovedRestores(site: Site, cooldown: Registries, disk: Disk, l: bool, t: real)
    requires Machine(site) && Holds(site, disk.files, true, l)
    requires Recovery(StoreSetup(site), RunnerState(cooldown, LOG, disk), ApprovedCall(disk.files, t)).1.executed
    ensures var after := Recovery(StoreSetup(site), RunnerState(cooldown, LOG, disk), ApprovedCall(disk.files, t)).0;
      Holds(site, after.disk.files, true, l)
  {
    var cfg, st, call := StoreSetup(site), RunnerState(cooldown, LOG, disk), ApprovedCall(disk.files, t);
    ApprovedIsStable(site, cooldown, disk, l, t);
    FilesAfter(site, disk, l, call.probe);
    StableCallEnds(cfg, st, call);
    StableRecoveryOutcome(cfg, st, call);
    assert Recovery(cfg, st, call).0.disk == Restored(cfg, disk, call);
  }

  lemma KeysOverAfter(site: Site, keys: Keys)
    ensures Check(Stamped(NOTHING, keys, 0.0), LimitsOf(StoreSetup(site).project), keys, 100.0).allowed
      <==> keys.fingerprint != "" && keys.eventType != "" && keys.projectId != ""
  {
  }

  /** One approval is used twice: both calls execute, and the log says nothing of either. */
  lemma ApprovalUsedTwice() returns (site: Site, disk: Disk)
    ensures Machine(site) && Holds(site, disk.files, true, true)
    ensures var (after, first) :=
        Recovery(StoreSetup(site), RunnerState(NOTHING, LOG, disk), ApprovedCall(disk.files, 0.0));
      var (last, second) := Recovery(StoreSetup(site), after, ApprovedCall(after.disk.files, 100.0));
      first.executed && second.executed && after.log == last.log == LOG
  {
    var text;
    site, text := MachineExists(true, true);
    disk := Disk(map["c.json" := text], []);
    var cfg, st, call := StoreSetup(site), RunnerState(NOTHING, LOG, disk), ApprovedCall(disk.files, 0.0);
    var keys := KeysOf(EVENT, cfg.project);
    ApprovedExecutes(site, NOTHING, disk, true, 0.0);
    ApprovedRestores(site, NOTHING, disk, true, 0.0);
    StampsIffExecuted(cfg, st, call);
    RecoveryLog(cfg, st, call);
    var after := Recovery(cfg, st, call).0;
    KeysOverAfter(site, keys);
    ApprovedExecutes(site, after.cooldown, after.disk, true, 100.0);
    RecoveryLog(cfg, after, ApprovedCall(after.disk.files, 100.0));
  }

  // ----- a request that nobody can approve -----

  /** The switch, and a number that the rules do not let the fix set. */
  const MIXED := SafeSpec("e", "f", "c.json", [FIRST_SWITCH, FieldCandidate(["l"], Int(7), LowerInt)])

  const MIXED_REGISTRY := Registry([MIXED], [], [], map[], [], [], [])

  /** A project in which a person must approve every change. */
  function AskingSetup(site: Site): Setup {
    Setup(MIXED_REGISTRY, map[], ProjectOn(false).(policy := POLICY.(requireHumanApproval := true)), site, true)
  }

  lemma MixedLookups()
    ensures DomainFor(MIXED_REGISTRY, "e") == Some(SafeDomain(MIXED)) && DomainFor(MIXED_REGISTRY, "unknown") == None
    ensures SpecByEvent([MIXED], "e") == Some(MIXED) && SpecByFix([MIXED], "f") == Some(MIXED)
  {
    assert Domains(MIXED_REGISTRY) == [SafeDomain(MIXED)];
    assert [SafeDomain(MIXED)][..0] == [];
  }

  lemma MixedIsEligible(site: Site)
    requires Machine(site)
    ensures Eligible(MIXED_REGISTRY, site.host, AskingSetup(site).project, EVENT)
  {
    MixedLookups();
    assert !NamesForbidden(MIXED_REGISTRY, "f") && !NamesForbidden(MIXED_REGISTRY, DescriptionOf(MIXED_REGISTRY, "f"));
    assert !Ambiguous(MIXED_REGISTRY, site.host, EVENT, "f");
    assert AllowlistClean(RuntimePolicy(MIXED_REGISTRY, AskingSetup(site).project));
  }

  lemma MixedPlan(probe: Probe)
    ensures var planned := Plan(Tree(true, true), MIXED.candidates, probe);
      CountActionable(planned) == 1 && CountUnsafe(planned) == 1
  {
    var data := Tree(true, true);
    assert ["k"][1..] == [] && ["l"][1..] == [];
    assert Lookup(data, ["k"]) == Some(Bool(true)) && Lookup(data, ["l"]) == Some(Bool(true));
    var first := PlannedEdit(["k"], Some(Bool(true)), Bool(false),
                             LocalTransition(DisableBool, data, Bool(true), Bool(false), probe));
    var second := PlannedEdit(["l"], Some(Bool(true)), Int(7),
                              LocalTransition(LowerInt, data, Bool(true), Int(7), probe));
    assert MIXED.candidates[1..] == [FieldCandidate(["l"], Int(7), LowerInt)];
    assert MIXED.candidates[1..][1..] == [];
    assert Plan(data, MIXED.candidates[1..], probe) == [second] + [];
    assert Plan(data, MIXED.candidates, probe) == [first] + ([second] + []);
    assert first.transition == ActionableBecause(BooleanTrueToFalse);
    assert second.transition == UnsafeBecause(IntegerLoweringRequiresIntValues);
    assert [first] + ([second] + []) == [first, second];
    assert [first, second][1..] == [second] && [second][1..] == [];
    assert CountUnsafe([second]) == 1 && CountActionable([second]) == 0;
  }

  /** The gate lets the event through, a person must approve, and the request that is left cannot be approved. */
  lemma NobodyCanApprove(site: Site, disk: Disk)
    requires Machine(site) && Holds(site, disk.files, true, true)
    ensures var cfg, st := AskingSetup(site), RunnerState(NOTHING, [], disk);
      var call := CallOn(disk.files, RerunFails, false);
      && FreshGate(cfg, NOTHING, call).allowed && cfg.project.policy.requireHumanApproval
      && Recovery(cfg, st, call).0.log == [MadeRequest(cfg, st, call)] && !AsksForApproval(cfg, st, call)
  {
    var cfg, st, call := AskingSetup(site), RunnerState(NOTHING, [], disk), CallOn(disk.files, RerunFails, false);
    MixedLookups();
    MixedIsEligible(site);
    SwitchesRead(site, disk.files, true, true);
    MixedPlan(call.probe);
    GateAllowsIff(cfg.reg, site.host, cfg.project, EVENT,
                  Check(NOTHING, LimitsOf(cfg.project), KeysOf(EVENT, cfg.project), 0.0), call.view);
    AllowedAsksIff(cfg, st, call);
  }

  // ----- a request approved in vain -----

  const AMBIGUOUS_REGISTRY := REGISTRY.(ambiguity := [Overlap({"f"}, CacheWrite, DiskFull)])

  /** The machine, with evidence that matches every marker. */
  function Matching(site: Site): Site {
    site.(host := site.host.(matches := (event, marker) => true))
  }

  function AmbiguousSetup(site: Site): Setup {
    Setup(AMBIGUOUS_REGISTRY, map[], ProjectOn(false), Matching(site), true)
  }

  lemma AmbiguousLookups()
    ensures DomainFor(AMBIGUOUS_REGISTRY, "e") == Some(SafeDomain(SPEC))
    ensures DomainFor(AMBIGUOUS_REGISTRY, "unknown") == None
  {
    Lookups();
    assert Domains(AMBIGUOUS_REGISTRY) == Domains(REGISTRY);
  }

  lemma AmbiguousMayBeApproved(site: Site, disk: Disk, probe: Probe)
    requires Machine(site) && Holds(site, disk.files, true, true)
    ensures MayBeApproved(AMBIGUOUS_REGISTRY, Matching(site).host, ProjectOn(false), EVENT, View(disk.files, probe))
    ensures Ambiguous(AMBIGUOUS_REGISTRY, Matching(site).host, EVENT, "f")
  {
    var reg := AMBIGUOUS_REGISTRY;
    Lookups();
    AmbiguousLookups();
    LocalIsActionable(site, disk.files, true, probe);
    SwitchesRead(site, disk.files, true, true);
    assert !NamesForbidden(reg, "f") && !NamesForbidden(reg, DescriptionOf(reg, "f"));
    assert AllowlistClean(RuntimePolicy(reg, ProjectOn(false)));
    assert reg.ambiguity[0] in reg.ambiguity && Fires(reg.ambiguity[0], Matching(site).host, EVENT, "f");
    OnePlanned(probe);
  }

  lemma OnePlanned(probe: Probe)
    ensures CountUnsafe(Plan(Tree(true, true), [FIRST_SWITCH], probe)) == 0
  {
    var data := Tree(true, true);
    assert ["k"][1..] == [] && [FIRST_SWITCH][1..] == [];
    assert Lookup(data, ["k"]) == Some(Bool(true));
    var first := PlannedEdit(["k"], Some(Bool(true)), Bool(false),
                             LocalTransition(DisableBool, data, Bool(true), Bool(false), probe));
    assert Plan(data, [FIRST_SWITCH], probe) == [first] + [] == [first];
    assert [first][1..] == [];
  }

  /** Ambiguous evidence asks for approval and gets it, and the repeated call still does not execute. */
  lemma ApprovedInVain(site: Site, disk: Disk)
    requires Machine(site) && Holds(site, disk.files, true, true)
    ensures var cfg, st := AmbiguousSetup(site), RunnerState(NOTHING, [], disk);
      var call := CallOn(disk.files, RerunFails, false).(newId := "a");
      && AsksForApproval(cfg, st, call)
      && !Recovery(cfg, ApprovedState(cfg, st, call), call.(approvalId := "a")).1.executed
  {
    var cfg, st := AmbiguousSetup(site), RunnerState(NOTHING, [], disk);
    var call := CallOn(disk.files, RerunFails, false).(newId := "a");
    AmbiguousMayBeApproved(site, disk, call.probe);
    AmbiguousLookups();
    AsksForApprovalIff(cfg, st, call);
    ApprovedRepeatIff(cfg, st, call);
  }
}
