/** Concrete recovery calls: one that changes a file and recovers or restores it, and two that undo an older fix. */
module RunnerWitnesses {
  import opened Wrappers
  import opened ConfigTree
  import opened Semantics
  import opened Registry
  import opened Projects
  import opened Hosts
  import opened Policy
  import opened Cooldown
  import opened Gate
  import opened GateTheorems
  import opened Executor
  import opened ExecutorTheorems
  import opened Rollbacks
  import opened Runner
  import opened RunnerTheorems
  import opened Witnesses

  const REGISTRY := Registry([SPEC], [], [], map[], [], [], [])

  const POLICY := PolicyConfig(true, ["f"], [], true, true, true, false, false, 60, 60, 60)

  const EVENT := Event("e", "i", "high", "s", [], "t", "", "x", 1, 0, 0)

  function ProjectOn(remote: bool): Project {
    Project("p", remote, "d", "d", POLICY)
  }

  function SetupOn(site: Site, remote: bool): Setup {
    Setup(REGISTRY, map[], ProjectOn(remote), site, false)
  }

  function StateWith(disk: Disk): RunnerState {
    RunnerState(Registries(map[], map[], map[]), [], disk)
  }

  function CallOn(seen: map<string, Bytes>, rerun: Rerun, raises: bool): Call {
    var probe: Probe := (host, port) => false;
    Call(EVENT, "", View(seen, probe), probe, 0.0, 0.0, 0.0, n => "s", rerun, raises, "")
  }

  lemma Lookups()
    ensures DomainFor(REGISTRY, "e") == Some(SafeDomain(SPEC)) && DomainFor(REGISTRY, "unknown") == None
    ensures SpecByEvent([SPEC], "e") == Some(SPEC) && SpecByFix([SPEC], "f") == Some(SPEC)
    ensures TrimmedIds([SPEC])
  {
    assert Domains(REGISTRY) == [SafeDomain(SPEC)];
    assert [SafeDomain(SPEC)][..0] == [];
    StripPlain("f");
  }

  lemma EventIsEligible(site: Site, remote: bool)
    requires Machine(site)
    ensures Eligible(REGISTRY, site.host, ProjectOn(remote), EVENT)
  {
    Lookups();
    assert !NamesForbidden(REGISTRY, "f") && !NamesForbidden(REGISTRY, DescriptionOf(REGISTRY, "f"));
    assert !Ambiguous(REGISTRY, site.host, EVENT, "f");
    assert AllowlistClean(RuntimePolicy(REGISTRY, ProjectOn(remote)));
  }

  lemma LocalIsActionable(site: Site, seen: map<string, Bytes>, l: bool, probe: Probe)
    requires Machine(site) && Holds(site, seen, true, l)
    ensures HasActionableEdit(REGISTRY, site.host, ProjectOn(false), "f", View(seen, probe))
  {
    Lookups();
    SwitchesRead(site, seen, true, l);
    var data := Tree(true, l);
    assert [FIRST_SWITCH][1..] == [];
    assert Plan(data, [FIRST_SWITCH], probe) ==
      [PlannedEdit(["k"], Some(Bool(true)), Bool(false),
          LocalTransition(DisableBool, data, Bool(true), Bool(false), probe))] + [];
  }

  lemma RemoteIsActionable(site: Site, probe: Probe)
    requires Machine(site)
    ensures HasActionableEdit(REGISTRY, site.host, ProjectOn(true), "f", View(map[], probe))
  {
    Lookups();
  }

  lemma CallExecutes(site: Site, remote: bool, disk: Disk, call: Call)
    requires Machine(site) && call == CallOn(call.view.files, call.rerun, call.reportRaises)
    requires HasActionableEdit(REGISTRY, site.host, ProjectOn(remote), "f", call.view)
    ensures MayExecute(SetupOn(site, remote), StateWith(disk), call)
  {
    Lookups();
    EventIsEligible(site, remote);
  }

  lemma OpIs(site: Site, remote: bool, disk: Disk, call: Call)
    requires call == CallOn(call.view.files, call.rerun, call.reportRaises)
    ensures SpecByFix(REGISTRY.safe, FixForEvent(REGISTRY, EVENT.eventType)) == Some(SPEC)
    ensures OpOf(SetupOn(site, remote), disk, call) == Op(SPEC, call.probe, "s")
  {
    Lookups();
  }

  // ----- recovered, or restored -----

  lemma CallIsStable(site: Site, disk: Disk, l: bool, rerun: Rerun)
    requires Machine(site) && Holds(site, disk.files, true, l)
    ensures var cfg, call := SetupOn(site, false), CallOn(disk.files, rerun, false);
      && TrimmedIds(REGISTRY.safe) && Stable(cfg, StateWith(disk), call) && MayExecute(cfg, StateWith(disk), call)
      && SpecByFix(REGISTRY.safe, FixForEvent(REGISTRY, EVENT.eventType)) == Some(SPEC)
      && OpOf(cfg, disk, call) == Op(SPEC, call.probe, "s") && ConfigOf(cfg, disk, call) == "c.json"
  {
    var call := CallOn(disk.files, rerun, false);
    LocalIsActionable(site, disk.files, l, call.probe);
    CallExecutes(site, false, disk, call);
    Lookups();
    OpIs(site, false, disk, call);
  }

  lemma FilesAfter(site: Site, disk: Disk, l: bool, probe: Probe)
    requires Machine(site) && Holds(site, disk.files, true, l)
    ensures var op := Op(SPEC, probe, "s");
      && Holds(site, Step(site, disk, op).files, false, l)
      && Backup(site, op) != "c.json" && IsJsonPath("c.json")
  {
    FixWrites(site, disk, true, l, probe, "s");
    BackupIsNotConfig(site.backupDir, "f", "c.json", "s");
  }

  lemma CallOutcome(site: Site, disk: Disk, l: bool, rerun: Rerun)
    requires Machine(site) && Holds(site, disk.files, true, l)
    ensures var call := CallOn(disk.files, rerun, false);
      var (after, result) := Recovery(SetupOn(site, false), StateWith(disk), call);
      var op := Op(SPEC, call.probe, "s");
      && result.executed && (result.Recovered() <==> rerun == RerunSucceeds)
      && (result.rollbackExecuted <==> rerun != RerunSucceeds)
      && (rerun != RerunSucceeds ==> result.rollbackSuccess)
      && after.disk == if rerun == RerunSucceeds then Step(site, disk, op)
                       else Disk(disk.files[Backup(site, op) := disk.files["c.json"]], disk.records)
  {
    var cfg, st, call := SetupOn(site, false), StateWith(disk), CallOn(disk.files, rerun, false);
    CallIsStable(site, disk, l, rerun);
    FilesAfter(site, disk, l, call.probe);
    ExecutesIff(cfg, st, call);
    StableCallEnds(cfg, st, call);
    StableRecoveryOutcome(cfg, st, call);
  }

  /**
   A call that executes on a file with the switch on: if the rerun succeeds the file ends with the switch off, and if
   not it ends as it was.
   */
  lemma RecoveryHappens(site: Site, disk: Disk, l: bool, rerun: Rerun)
    requires Machine(site) && Holds(site, disk.files, true, l)
    ensures var (after, result) := Recovery(SetupOn(site, false), StateWith(disk), CallOn(disk.files, rerun, false));
      && result.executed && "c.json" in after.disk.files
      && (rerun == RerunSucceeds ==> result.Recovered() && !result.rollbackExecuted
                                     && Holds(site, after.disk.files, false, l))
      && (rerun != RerunSucceeds ==> result.rollbackSuccess && !result.Recovered() && after.disk.records == disk.records
                                     && after.disk.files["c.json"] == disk.files["c.json"])
  {
    CallOutcome(site, disk, l, rerun);
    FilesAfter(site, disk, l, CallOn(disk.files, rerun, false).probe);
  }

  /** And there is such a machine with such a file. */
  lemma RecoveryIsPossible() returns (site: Site, disk: Disk)
    ensures Machine(site) && Holds(site, disk.files, true, true)
    ensures forall rerun :: Recovery(SetupOn(site, false), StateWith(disk), CallOn(disk.files, rerun, false)).1.executed
  {
    var text;
    site, text := MachineExists(true, true);
    disk := Disk(map["c.json" := text], []);
    forall rerun ensures Recovery(SetupOn(site, false), StateWith(disk), CallOn(disk.files, rerun, false)).1.executed {
      RecoveryHappens(site, disk, true, rerun);
    }
  }

  // ----- an older fix is taken back -----

  const OLDER := Edit("c.json", "b/old.bak", ["l"], Bool(true), Bool(false))

  /** The file after an older fix switched `l` off, with its backup and its record. */
  function OlderDisk(text: Bytes, before: Bytes): Disk {
    Disk(map["c.json" := text, "b/old.bak" := before], [ApplyRecord("g", [OLDER])])
  }

  lemma OlderIsProper(text: Bytes, before: Bytes)
    ensures Proper(OlderDisk(text, before))
  {
    var path := "b/old.bak";
    assert path[|path| - 4..] == ".bak";
    assert IsJsonPath("c.json");
  }

  lemma OlderRollsBack(site: Site, files: map<string, Bytes>, text: Bytes)
    requires Machine(site) && "b/old.bak" in files && files["b/old.bak"] == text
    ensures var after := Rollback(site, Disk(files, [ApplyRecord("g", [OLDER])])).0;
      after.records == [] && "c.json" in after.files && after.files["c.json"] == text
  {
    SingleEditRollback(site, files, [], "g", OLDER);
    assert [] + [ApplyRecord("g", [OLDER])] == [ApplyRecord("g", [OLDER])];
  }

  lemma BackupOfFix(site: Site)
    requires Machine(site)
    ensures BackupPath(site.backupDir, "f", "c.json", "s") != "b/old.bak"
  {
    assert BackupPath(site.backupDir, "f", "c.json", "s")[2] == 'f';
  }

  /**
   The rerun fails and recording the result raises: the first rollback restores the file, and the second one takes
   the older fix back.
   */
  lemma StrayRollbackTakesOlderFix(site: Site, text: Bytes, before: Bytes)
    requires Machine(site) && Holds(site, map["c.json" := text], true, false)
    ensures var disk := OlderDisk(text, before);
      var (after, result) := Recovery(SetupOn(site, false), StateWith(disk), CallOn(disk.files, RerunFails, true));
      && result.executed && result.rollbackSuccess
      && after.disk.records == [] && "c.json" in after.disk.files && after.disk.files["c.json"] == before
  {
    var disk := OlderDisk(text, before);
    var cfg, st, call := SetupOn(site, false), StateWith(disk), CallOn(disk.files, RerunFails, true);
    LocalIsActionable(site, disk.files, false, call.probe);
    CallExecutes(site, false, disk, call);
    OlderAfter(site, false, disk, call, text, before, true);
  }

  /**
   On a remote project the file is not read before the apply. The fix finds its switch off already, succeeds without
   writing, the rerun fails, and the rollback takes the older fix back.
   */
  lemma RemoteNoOpTakesOlderFix(site: Site, text: Bytes, before: Bytes)
    requires Machine(site) && Holds(site, map["c.json" := text], false, false)
    ensures var disk := OlderDisk(text, before);
      var (after, result) := Recovery(SetupOn(site, true), StateWith(disk), CallOn(map[], RerunFails, false));
      && result.executed && result.applySuccess && result.rollbackSuccess
      && after.disk.records == [] && "c.json" in after.disk.files && after.disk.files["c.json"] == before
  {
    var disk := OlderDisk(text, before);
    var call := CallOn(map[], RerunFails, false);
    RemoteIsActionable(site, call.probe);
    CallExecutes(site, true, disk, call);
    OlderAfter(site, true, disk, call, text, before, false);
  }

  /** Both happen on one machine: the older fix goes, and with it the setting it had made. */
  lemma OlderFixesAreLost() returns (site: Site, on: Bytes, off: Bytes, before: Bytes)
    ensures Machine(site) && on != before && off != before
    ensures Holds(site, map["c.json" := on], true, false) && Holds(site, map["c.json" := off], false, false)
    ensures var after := Recovery(SetupOn(site, false), StateWith(OlderDisk(on, before)),
                                  CallOn(OlderDisk(on, before).files, RerunFails, true)).0.disk;
      after.records == [] && "c.json" in after.files && after.files["c.json"] == before
    ensures var after := Recovery(SetupOn(site, true), StateWith(OlderDisk(off, before)),
        CallOn(map[], RerunFails, false)).0.disk;
      after.records == [] && "c.json" in after.files && after.files["c.json"] == before
  {
    site, on := MachineExists(true, false);
    off, before := site.host.render("", Tree(false, false)), site.host.render("", Tree(true, true));
    assert Tree(true, false).fields["l"] != Tree(true, true).fields["l"];
    assert Tree(false, false).fields["l"] != Tree(true, true).fields["l"];
    assert site.host.parse(off) == Some(Tree(false, false)) && site.host.parse(before) == Some(Tree(true, true));
    StrayRollbackTakesOlderFix(site, on, before);
    RemoteNoOpTakesOlderFix(site, off, before);
  }

  lemma FindsEither(site: Site, disk: Disk, k: bool, l: bool, probe: Probe)
    requires Machine(site) && Holds(site, disk.files, k, l)
    ensures var op := Op(SPEC, probe, "s"); FindsWritable(site, disk, op) == k && FindsSafe(site, disk, op) == !k
  {
    FixVerdicts(site, disk.files, k, l, probe);
  }

  lemma OlderRollsBackCall(site: Site, remote: bool, disk: Disk, call: Call, k: bool)
    requires Machine(site) && Holds(site, disk.files, k, false)
    requires call == CallOn(call.view.files, RerunFails, k) && MayExecute(SetupOn(site, remote), StateWith(disk), call)
    ensures TrimmedIds(REGISTRY.safe) && RollsBack(SetupOn(site, remote), StateWith(disk), call)
    ensures OpOf(SetupOn(site, remote), disk, call) == Op(SPEC, call.probe, "s")
    ensures RollbacksIn(SetupOn(site, remote), call) == if k then 2 else 1
  {
    Lookups();
    OpIs(site, remote, disk, call);
    FindsEither(site, disk, k, false, call.probe);
  }

  lemma OlderAfter(site: Site, remote: bool, disk: Disk, call: Call, text: Bytes, before: Bytes, k: bool)
    requires Machine(site) && disk == OlderDisk(text, before) && Holds(site, disk.files, k, false)
    requires call == CallOn(call.view.files, RerunFails, k) && MayExecute(SetupOn(site, remote), StateWith(disk), call)
    ensures var (after, result) := Recovery(SetupOn(site, remote), StateWith(disk), call);
      && result.executed && result.applySuccess && result.rollbackSuccess
      && after.disk.records == [] && "c.json" in after.disk.files && after.disk.files["c.json"] == before
    ensures Proper(disk) && CanRollBack(site, TargetOf(site, disk, OpOf(SetupOn(site, remote), disk, call)))
  {
    OlderIsProper(text, before);
    OlderRollsBackCall(site, remote, disk, call, k);
    RolledBackIff(SetupOn(site, remote), StateWith(disk), call);
    DiskAfterRollback(SetupOn(site, remote), StateWith(disk), call);
    FindsEither(site, disk, k, false, call.probe);
    RollbacksEnd(site, disk, Op(SPEC, call.probe, "s"), k, before);
  }

  /** One stray rollback: after a write the second of two, otherwise the only one. */
  lemma RollbacksEnd(site: Site, disk: Disk, op: Op, k: bool, before: Bytes)
    requires Machine(site) && op.spec == SPEC && op.stamp == "s" && disk.records == [ApplyRecord("g", [OLDER])]
    requires "b/old.bak" in disk.files && disk.files["b/old.bak"] == before
    requires FindsWritable(site, disk, op) == k
    ensures var (after, ok) := RollBackTimes(site, Step(site, disk, op), if k then 2 else 1);
      ok && after.records == [] && "c.json" in after.files && after.files["c.json"] == before
  {
    BackupOfFix(site);
    ApplySucceedsIff(site, disk, op);
    assert ConfigPath(site, "c.json") == "c.json";
    if k {
      RollbackUndoesApply(site, disk, op);
      var restored := disk.files[Backup(site, op) := disk.files["c.json"]];
      OlderRollsBack(site, restored, before);
      SingleEditRollback(site, restored, [], "g", OLDER);
    } else {
      NoWriteNoChange(site, disk, op);
      OlderRollsBack(site, disk.files, before);
      SingleEditRollback(site, disk.files, [], "g", OLDER);
    }
    assert [] + [ApplyRecord("g", [OLDER])] == [ApplyRecord("g", [OLDER])];
  }
}
