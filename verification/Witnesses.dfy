/** Concrete settings: recovery executes and changes a file, and each promise that fails does fail at some input. */
module Witnesses {
  import opened Wrappers
  import opened ConfigTree
  import opened Semantics
  import opened Registry
  import opened Hosts
  import opened Executor
  import opened ExecutorTheorems
  import opened Rollbacks
  import opened RegistryRuns
  import opened TextForm

  // ----- one machine and one file -----

  /** A machine that writes what it can read again, and takes every path as it stands. */
  ghost predicate Machine(site: Site) {
    && Faithful(site.host) && site.projectDir == "d" && site.backupDir == "b"
    && (forall dir, name :: site.host.resolve(dir, name) == name)
    && (forall path, dir :: site.host.inside(path, dir))
    && (forall event, marker :: !site.host.matches(event, marker))
  }

  const FIRST_SWITCH := FieldCandidate(["k"], Bool(false), DisableBool)

  const SECOND_SWITCH := FieldCandidate(["l"], Bool(false), DisableBool)

  const SPEC := SafeSpec("e", "f", "c.json", [FIRST_SWITCH])

  const BOTH := SafeSpec("e", "f", "c.json", [FIRST_SWITCH, SECOND_SWITCH])

  function Tree(k: bool, l: bool): Json {
    Obj(map["k" := Bool(k), "l" := Bool(l)])
  }

  /** The file `c.json` holds the two switches. */
  predicate Holds(site: Site, files: map<string, Bytes>, k: bool, l: bool) {
    "c.json" in files && site.host.parse(files["c.json"]) == Some(Tree(k, l))
  }

  /** There are such a machine and, for every setting of the switches, such a file. */
  lemma MachineExists(k: bool, l: bool) returns (site: Site, text: Bytes)
    ensures Machine(site) && Holds(site, map["c.json" := text], k, l)
  {
    site, text := Site(TextHost(), "d", "b"), Write(Tree(k, l));
    TextHostIsFaithful();
    ReadAllReadsBack(Tree(k, l));
  }

  lemma SwitchesRead(site: Site, files: map<string, Bytes>, k: bool, l: bool)
    requires Machine(site) && Holds(site, files, k, l)
    ensures ReadTree(site, files, "c.json") == Some(Tree(k, l)) && ConfigPath(site, "c.json") == "c.json"
    ensures Lookup(Tree(k, l), ["k"]) == Some(Bool(k)) && Lookup(Tree(k, l), ["l"]) == Some(Bool(l))
    ensures Update(Tree(k, l), ["k"], Bool(false)) == Tree(false, l)
    ensures Update(Tree(k, l), ["l"], Bool(false)) == Tree(k, false)
  {
    assert ["k"][1..] == [] && ["l"][1..] == [];
  }

  lemma Judged(k: bool, l: bool, probe: Probe)
    ensures VerdictOf(Tree(k, l), FIRST_SWITCH, probe) == if k then Writable else AlreadySafe
    ensures VerdictOf(Tree(k, l), SECOND_SWITCH, probe) == if l then Writable else AlreadySafe
  {
    assert ["k"][1..] == [] && ["l"][1..] == [];
    assert Lookup(Tree(k, l), ["k"]) == Some(Bool(k)) && Lookup(Tree(k, l), ["l"]) == Some(Bool(l));
  }

  lemma FixVerdicts(site: Site, files: map<string, Bytes>, k: bool, l: bool, probe: Probe)
    requires Machine(site) && Holds(site, files, k, l)
    ensures ReadTree(site, files, "c.json") == Some(Tree(k, l)) && ConfigPath(site, "c.json") == "c.json"
    ensures Verdicts(Tree(k, l), SPEC.candidates, probe) == [if k then Writable else AlreadySafe]
    ensures Verdicts(Tree(k, l), BOTH.candidates, probe) == [if k then Writable else AlreadySafe,
                                                             if l then Writable else AlreadySafe]
  {
    SwitchesRead(site, files, k, l);
    Judged(k, l, probe);
  }

  /** The fix switches `k` off in the file, and finds nothing to do when it is off. */
  lemma FixWrites(site: Site, disk: Disk, k: bool, l: bool, probe: Probe, stamp: string)
    requires Machine(site) && Holds(site, disk.files, k, l)
    ensures var op := Op(SPEC, probe, stamp);
      && Pushes(site, disk, op) == k && ConfigPath(site, "c.json") == "c.json"
      && (k ==> Holds(site, Step(site, disk, op).files, false, l))
  {
    var op := Op(SPEC, probe, stamp);
    FixVerdicts(site, disk.files, k, l, probe);
    SwitchesRead(site, disk.files, k, l);
    if k {
      assert FirstWritable([Writable]) == 0;
      WriteFacts(site, disk, op);
    } else {
      assert FirstWritable([AlreadySafe]) == 1 by {
        assert [AlreadySafe][1..] == [];
      }
    }
  }

  /** A run of registry fixes on a faithful machine that writes. */
  lemma RegistryRunWrites() returns (site: Site, ds: seq<Disk>, ops: seq<Op>)
    ensures RegistryRun(site, [SPEC], ds, ops) && |ops| == 1 && Pushes(site, ds[0], ops[0])
    ensures Holds(site, ds[0].files, true, true) && Holds(site, ds[1].files, false, true)
  {
    var text;
    site, text := MachineExists(true, true);
    var start, op := Disk(map["c.json" := text], []), Op(SPEC, (host, port) => false, "s");
    FixWrites(site, start, true, true, op.probe, op.stamp);
    ds, ops := [start, Step(site, start, op)], [op];
  }

  // ----- two writes with one backup name -----

  lemma BothWrites(site: Site, disk: Disk, k: bool, l: bool, op: Op)
    requires Machine(site) && Holds(site, disk.files, k, l) && (k || l) && op.spec == BOTH
    ensures Pushes(site, disk, op) && Holds(site, Step(site, disk, op).files, false, k && l)
  {
    FixVerdicts(site, disk.files, k, l, op.probe);
    SwitchesRead(site, disk.files, k, l);
    var vs := Verdicts(Tree(k, l), BOTH.candidates, op.probe);
    assert vs[1..] == [if l then Writable else AlreadySafe];
    assert FirstWritable(vs) == if k then 0 else 1;
    WriteFacts(site, disk, op);
  }

  /**
   One fix that writes twice within a second: both backups have one name, and two rollbacks do not restore the file.
   */
  lemma TwoWritesOneBackup() returns (site: Site, start: Disk, op: Op)
    ensures Machine(site) && Holds(site, start.files, true, true)
    ensures Pushes(site, start, op) && Pushes(site, Step(site, start, op), op)
    ensures var after := RollbackTimes(site, Step(site, Step(site, start, op), op), 2).0;
      "c.json" in after.files && after.files["c.json"] != start.files["c.json"]
  {
    var text;
    site, text := MachineExists(true, true);
    start, op := Disk(map["c.json" := text], []), Op(BOTH, (host, port) => false, "s");
    BothWrites(site, start, true, true, op);
    BothWrites(site, Step(site, start, op), false, true, op);
    TwoRollbacksRestoreIff(site, start, op, op);
  }

  // ----- the fix with two fields -----

  function GpuTree(precision: string, checkpointing: bool): Json {
    Obj(map["precision" := Str(precision), "gradient_checkpointing" := Bool(checkpointing)])
  }

  lemma GpuReads(site: Site, files: map<string, Bytes>)
    requires Machine(site) && "config.json" in files
        && site.host.parse(files["config.json"]) == Some(GpuTree("fp32", false))
    ensures ConfigPath(site, CONFIG) == "config.json" && ReadTree(site, files, CONFIG) == Some(GpuTree("fp32", false))
  {
  }

  lemma GpuNeeds()
    ensures NeedsWrite(GpuTree("fp32", false), ["precision"], Str("bf16"))
    ensures NeedsWrite(GpuTree("fp32", false), ["gradient_checkpointing"], Bool(true))
    ensures Update(GpuTree("fp32", false), ["precision"], Str("bf16")) == GpuTree("bf16", false)
    ensures Diverge(["precision"], ["gradient_checkpointing"])
  {
    assert ["precision"][1..] == [] && ["gradient_checkpointing"][1..] == [];
  }

  /** The fix on a file where both fields change: its rollback succeeds and leaves the first one changed. */
  lemma GpuRollbackKeepsPrecision(legacy: LegacyTable, stamps: Stamps) returns (site: Site, start: Disk)
    requires HasGpuFix(legacy)
    ensures "config.json" in start.files && site.host.parse(start.files["config.json"]) == Some(GpuTree("fp32", false))
    ensures var (applied, ok) := AppliedLegacy(site, legacy, start, "fix-gpu-2", stamps);
      var (undone, back) := Rollback(site, applied);
      && ok && back && undone.records == start.records && "config.json" in undone.files
      && site.host.parse(undone.files["config.json"]) == Some(GpuTree("bf16", false))
  {
    site := Site(TextHost(), "d", "b");
    TextHostIsFaithful();
    var text := site.host.render("", GpuTree("fp32", false));
    start := Disk(map["config.json" := text], []);
    assert site.host.parse(text) == Some(GpuTree("fp32", false));
    GpuReads(site, start.files);
    GpuNeeds();
    GpuOutcome(site, legacy, start, stamps);
  }

  lemma GpuOutcome(site: Site, legacy: LegacyTable, start: Disk, stamps: Stamps)
    requires HasGpuFix(legacy) && Faithful(site.host)
        && ReadTree(site, start.files, CONFIG) == Some(GpuTree("fp32", false))
    requires ConfigPath(site, CONFIG) == "config.json"
    ensures var (applied, ok) := AppliedLegacy(site, legacy, start, "fix-gpu-2", stamps);
      var (undone, back) := Rollback(site, applied);
      && ok && back && undone.records == start.records && "config.json" in undone.files
      && site.host.parse(undone.files["config.json"]) == Some(GpuTree("bf16", false))
  {
    GpuNeeds();
    TwoFieldRollbackKeepsFirstEdit(site, start, ["precision"], Str("bf16"), ["gradient_checkpointing"], Bool(true),
                                   "fix-gpu-2", stamps(0), stamps(1));
    assert seq(|LegacyEdits(legacy, "fix-gpu-2")|, i requires 0 <= i => stamps(i)) == [stamps(0), stamps(1)];
  }

  lemma UnrecordedOutcome(site: Site, legacy: LegacyTable, start: Disk, data: Json, stamps: Stamps)
    requires HasGpuFix(legacy) && Faithful(site.host) && ReadTree(site, start.files, CONFIG) == Some(data)
    requires Lookup(data, ["gradient_checkpointing"]).None? && NeedsWrite(data, ["precision"], Str("bf16"))
    ensures var applied := AppliedLegacy(site, legacy, start, "fix-gpu-2", stamps).0;
      applied.records == start.records && applied.files != start.files
  {
    GpuNeeds();
    TwoFieldUnrecordedWriteIff(site, start, ["precision"], Str("bf16"), ["gradient_checkpointing"], Bool(true),
                               "fix-gpu-2", stamps(0), stamps(1));
    assert seq(|LegacyEdits(legacy, "fix-gpu-2")|, i requires 0 <= i => stamps(i)) == [stamps(0), stamps(1)];
  }

  const PRECISION_ONLY := Obj(map["precision" := Str("fp32")])

  lemma PrecisionOnlyNeeds()
    ensures Lookup(PRECISION_ONLY, ["gradient_checkpointing"]).None?
    ensures NeedsWrite(PRECISION_ONLY, ["precision"], Str("bf16"))
  {
    assert ["precision"][1..] == [];
    assert Lookup(PRECISION_ONLY, ["precision"]) == Some(Str("fp32"));
  }

  /** The same fix on a file without the second field: the first field is written, and no record is left of it. */
  lemma GpuWritesUnrecorded(legacy: LegacyTable, stamps: Stamps) returns (site: Site, start: Disk)
    requires HasGpuFix(legacy)
    ensures var applied := AppliedLegacy(site, legacy, start, "fix-gpu-2", stamps).0;
      applied.records == start.records && applied.files != start.files
  {
    var on;
    site, on := MachineExists(true, true);
    start := PrecisionOnlyDisk(site);
    PrecisionOnlyNeeds();
    UnrecordedOutcome(site, legacy, start, PRECISION_ONLY, stamps);
  }

  lemma PrecisionOnlyDisk(site: Site) returns (start: Disk)
    requires Machine(site)
    ensures ReadTree(site, start.files, CONFIG) == Some(PRECISION_ONLY)
  {
    var text := site.host.render("", PRECISION_ONLY);
    assert site.host.parse(text) == Some(PRECISION_ONLY);
    start := Disk(map["config.json" := text], []);
  }

  // ----- a rollback that fails -----

  const LOST := Edit("c.json", "b/lost.bak", ["l"], Bool(true), Bool(false))

  const KEPT := Edit("c.json", "b/kept.bak", ["k"], Bool(true), Bool(false))

  /** The second backup of a record is gone: the rollback fails and keeps the record, but the file has changed. */
  lemma FailedRollbackChanges(site: Site, text: Bytes, before: Bytes)
    requires Machine(site) && text != before
    ensures var disk := Disk(map["c.json" := text, "b/kept.bak" := before], [ApplyRecord("g", [KEPT, LOST])]);
      var (after, ok) := Rollback(site, disk);
      && Proper(disk) && !ok && after.records == disk.records
      && "c.json" in after.files && after.files["c.json"] == before != disk.files["c.json"]
  {
    var disk := Disk(map["c.json" := text, "b/kept.bak" := before], [ApplyRecord("g", [KEPT, LOST])]);
    LostIsProper(disk);
    assert !RestorableAt(site, disk.files, [KEPT, LOST], 1);
    assert !CanRollBack(site, disk);
    RollbackSucceedsIff(site, disk);
    FailedRollbackLeaves(site, disk, "c.json");
    assert [KEPT, LOST][1..] == [LOST] && [LOST][1..] == [];
    assert LastEdit(site, disk.files, [LOST], "c.json") == None;
    assert LastEdit(site, disk.files, [KEPT, LOST], "c.json") == Some(KEPT);
  }

  lemma LostIsProper(disk: Disk)
    requires disk.records == [ApplyRecord("g", [KEPT, LOST])]
    ensures Proper(disk)
  {
    var kept, lost := "b/kept.bak", "b/lost.bak";
    assert kept[|kept| - 4..] == ".bak" && lost[|lost| - 4..] == ".bak";
    assert IsJsonPath("c.json");
  }
}
