/**
 The remote executor: the script on the far side is called once per candidate and reads the file afresh each
 time. A call is taken to be delivered and answered.
 */
module RemoteExecutor {
  import opened Wrappers
  import opened ConfigTree
  import opened Semantics
  import opened Registry
  import opened Hosts
  import opened Executor

  /** One call of the script's update operation. */
  function RemoteUpdate(site: Site, files: map<string, Bytes>, spec: SafeSpec, c: FieldCandidate, probe: Probe,
                        stamp: string):
    (map<string, Bytes>, EditResult)
  {
    match ReadTree(site, files, spec.configPath)
    case None => (files, FAILED_EDIT)
    case Some(data) =>
      match Lookup(data, c.path)
      case None => (files, FAILED_EDIT)
      case Some(old_) =>
        var t := RemoteTransition(c.rule, data, old_, c.target, probe);
        if t.noOp then (files, NO_OP_EDIT)
        else if !t.actionable then (files, FAILED_EDIT)
        else
          var config := ConfigPath(site, spec.configPath);
          var backup := BackupPath(site.backupDir, spec.fixId, config, stamp);
          (WriteField(site, files, spec.configPath, c.path, c.target, backup),
           EditResult(true, false, Some(Edit(config, backup, c.path, old_, c.target))))
  }

  /** What one call does, in terms of the local executor's verdict on the same candidate. */
  lemma RemoteUpdateByVerdict(site: Site, files: map<string, Bytes>, spec: SafeSpec, c: FieldCandidate, probe: Probe,
                              stamp: string)
    ensures RemoteUpdate(site, files, spec, c, probe, stamp) ==
      match ReadTree(site, files, spec.configPath)
      case None => (files, FAILED_EDIT)
      case Some(data) =>
        match VerdictOf(data, c, probe)
        case AlreadySafe => (files, NO_OP_EDIT)
        case Writable => UpdateField(site, files, spec.configPath, c.path, c.target, spec.fixId, stamp)
        case _ => (files, FAILED_EDIT)
  {
    match ReadTree(site, files, spec.configPath)
    case None =>
    case Some(data) =>
      if Lookup(data, c.path).Some? {
        RemoteRulesAreLocalRules(c.rule, data, Lookup(data, c.path).value, c.target, probe);
      }
  }

  class RemoteSafeApplyExecutor {
    const site: Site
    var files: map<string, Bytes>
    var records: seq<ApplyRecord>

    constructor (site: Site, disk: Disk)
      ensures this.site == site && State() == disk
    {
      this.site, files, records := site, disk.files, disk.records;
    }

    function State(): Disk
      reads this
    {
      Disk(files, records)
    }

    method UpdateRemoteField(spec: SafeSpec, c: FieldCandidate, probe: Probe,
                             stamp: string) returns (result: EditResult)
      modifies this`files
      ensures (files, result) == RemoteUpdate(site, old(files), spec, c, probe, stamp)
    {
      var config := ConfigPath(site, spec.configPath);
      if !site.host.inside(config, site.projectDir) || config !in files || !IsJsonPath(config) {
        return FAILED_EDIT;
      }
      var original := files[config];
      var parsed := site.host.parse(original);
      if parsed.None? {
        return FAILED_EDIT;
      }
      var oldValue := GetNestedValue(parsed.value, c.path);
      if oldValue.None? {
        return FAILED_EDIT;
      }
      var transition := RemoteTransition(c.rule, parsed.value, oldValue.value, c.target, probe);
      if transition.noOp {
        return NO_OP_EDIT;
      }
      if !transition.actionable {
        return FAILED_EDIT;
      }
      var backup := BackupPath(site.backupDir, spec.fixId, config, stamp);
      files := files[backup := original];
      files := files[config := site.host.render(original, Update(parsed.value, c.path, c.target))];
      return EditResult(true, false, Some(Edit(config, backup, c.path, oldValue.value, c.target)));
    }

    /**
     The loop over candidates refines the local executor: same files, same record, same outcome as one local
     application at the moment of the first writable candidate.
     */
    method ApplyFirstExistingRemoteField(spec: SafeSpec, probe: Probe, stamps: Stamps) returns (success: bool)
      modifies this
      ensures (State(), success) ==
          Applied(site, old(State()), spec, probe, stamps(WriteMoment(site, old(files), spec, probe)))
    {
      ghost var data := ReadTree(site, files, spec.configPath);
      ghost var vs := if data.Some? then Verdicts(data.value, spec.candidates, probe) else [];
      var sawNoOp := false;
      for i := 0 to |spec.candidates|
        invariant files == old(files) && records == old(records)
        invariant data.None? ==> !sawNoOp
        invariant data.Some? ==> Writable !in vs[..i] && (sawNoOp <==> AlreadySafe in vs[..i])
      {
        var c := spec.candidates[i];
        RemoteUpdateByVerdict(site, files, spec, c, probe, stamps(i));
        if data.Some? {
          assert vs[..i + 1] == vs[..i] + [vs[i]];
        }
        var result := UpdateRemoteField(spec, c, probe, stamps(i));
        if result.success && result.noOp {
          sawNoOp := true;
          continue;
        }
        if result.success {
          FirstWritableAt(vs, i);
          records := records + [ApplyRecord(spec.fixId, [result.edit.value])];
          return true;
        }
      }
      if data.Some? {
        assert vs[..|vs|] == vs;
        FirstWritableAt(vs, |vs|);
      }
      return sawNoOp;
    }

    method RollbackLatest() returns (success: bool)
      modifies this
      ensures (State(), success) == Rollback(site, old(State()))
    {
      if records == [] {
        return false;
      }
      var latest := records[|records| - 1];
      var ok := true;
      for i := 0 to |latest.edits|
        invariant records == old(records)
        invariant var (f, rest) := RestoreAll(site, files, latest.edits[i..]);
          (f, ok && rest) == RestoreAll(site, old(files), latest.edits)
      {
        assert latest.edits[i..][1..] == latest.edits[i + 1..];
        var edit := latest.edits[i];
        if !site.host.inside(edit.configPath, site.projectDir) || edit.backupPath !in files {
          ok := false;
        } else {
          files := files[edit.configPath := files[edit.backupPath]];
        }
      }
      success := latest.edits != [] && ok;
      if success {
        records := records[..|records| - 1];
      }
    }
  }

  /** The position of the call that writes, if one does. */
  function WriteMoment(site: Site, files: map<string, Bytes>, spec: SafeSpec, probe: Probe): nat {
    match ReadTree(site, files, spec.configPath)
    case None => 0
    case Some(data) => FirstWritable(Verdicts(data, spec.candidates, probe))
  }
}
