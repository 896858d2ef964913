/** When a rollback succeeds, what it does to the files when it fails, and when it does nothing at all. */
module Rollbacks {
  import opened Wrappers
  import opened ConfigTree
  import opened Semantics
  import opened Registry
  import opened Hosts
  import opened Executor
  import opened ExecutorTheorems

  /** The edit at `i` can be undone once the edits before it are: its backup exists, or one of them brings it back. */
  predicate RestorableAt(site: Site, files: map<string, Bytes>, edits: seq<Edit>, i: nat)
    requires i < |edits|
  {
    site.host.inside(edits[i].configPath, site.projectDir)
    && (edits[i].backupPath in files || exists j | 0 <= j < i :: edits[j].configPath == edits[i].backupPath)
  }

  predicate AllRestorable(site: Site, files: map<string, Bytes>, edits: seq<Edit>) {
    forall i | 0 <= i < |edits| :: RestorableAt(site, files, edits, i)
  }

  /** There is a newest record with edits, and each of them can be undone. */
  predicate CanRollBack(site: Site, disk: Disk) {
    disk.records != [] &&
    var edits := disk.records[|disk.records| - 1].edits;
    edits != [] && AllRestorable(site, disk.files, edits)
  }

  lemma RestorableAfterFirst(site: Site, files: map<string, Bytes>, edits: seq<Edit>, i: nat)
    requires 0 < i < |edits| && RestorableAt(site, files, edits, 0)
    ensures var files' := RestoreOne(site, files, edits[0]).0;
      RestorableAt(site, files', edits[1..], i - 1) <==> RestorableAt(site, files, edits, i)
  {
    var rest := edits[1..];
    if j :| 0 <= j < i - 1 && rest[j].configPath == rest[i - 1].backupPath {
      assert edits[j + 1].configPath == edits[i].backupPath;
    }
    if j :| 0 < j < i && edits[j].configPath == edits[i].backupPath {
      assert rest[j - 1].configPath == rest[i - 1].backupPath;
    }
  }

  /** Replaying the edits succeeds exactly when each can be undone. */
  lemma {:induction false} RestoreSucceedsIff(site: Site, files: map<string, Bytes>, edits: seq<Edit>)
    ensures RestoreAll(site, files, edits).1 <==> AllRestorable(site, files, edits)
    decreases edits
  {
    if edits != [] {
      var (files', ok) := RestoreOne(site, files, edits[0]);
      RestoreSucceedsIff(site, files', edits[1..]);
      if RestorableAt(site, files, edits, 0) {
        forall i | 0 < i < |edits|
          ensures RestorableAt(site, files', edits[1..], i - 1) <==> RestorableAt(site, files, edits, i)
        {
          RestorableAfterFirst(site, files, edits, i);
        }
        if AllRestorable(site, files, edits) {
          forall k | 0 <= k < |edits[1..]| ensures RestorableAt(site, files', edits[1..], k) {
            assert RestorableAt(site, files, edits, k + 1);
            assert RestorableAt(site, files', edits[1..], k + 1 - 1);
          }
        }
        if AllRestorable(site, files', edits[1..]) {
          forall i | 0 <= i < |edits| ensures RestorableAt(site, files, edits, i) {
            assert i > 0 ==> RestorableAt(site, files', edits[1..], i - 1);
          }
        }
      }
    }
  }

  /** A rollback succeeds exactly when it can: the condition is on the disk before the call. */
  lemma RollbackSucceedsIff(site: Site, disk: Disk)
    ensures Rollback(site, disk).1 <==> CanRollBack(site, disk)
  {
    if disk.records != [] {
      RestoreSucceedsIff(site, disk.files, disk.records[|disk.records| - 1].edits);
    }
  }

  // ----- the files after a rollback, successful or not -----

  /** Edits as the executors make them: of a JSON file, with a backup beside it. */
  ghost predicate ProperEdits(edits: seq<Edit>) {
    forall e | e in edits :: IsJsonPath(e.configPath) && IsBackupPath(e.backupPath)
  }

  ghost predicate Proper(disk: Disk) {
    forall r | r in disk.records :: ProperEdits(r.edits)
  }

  /** The last edit of a file whose backup can be copied back. */
  function LastEdit(site: Site, files: map<string, Bytes>, edits: seq<Edit>, path: string): Option<Edit> {
    if edits == [] then None
    else
      match LastEdit(site, files, edits[1..], path)
      case Some(e) => Some(e)
      case None =>
        var e := edits[0];
        if e.configPath == path && e.backupPath in files && site.host.inside(path, site.projectDir) then Some(e)
            else None
  }

  lemma {:induction false} LastEditIs(site: Site, files: map<string, Bytes>, edits: seq<Edit>, path: string)
    ensures var last := LastEdit(site, files, edits, path);
      last.Some? ==> last.value in edits && last.value.configPath == path && last.value.backupPath in files
  {
    if edits != [] {
      LastEditIs(site, files, edits[1..], path);
    }
  }

  lemma {:induction false} LastEditSameBackups(site: Site, a: map<string, Bytes>, b: map<string, Bytes>,
                                               edits: seq<Edit>,
                                               path: string)
    requires forall e | e in edits :: e.backupPath in a <==> e.backupPath in b
    ensures LastEdit(site, a, edits, path) == LastEdit(site, b, edits, path)
  {
    if edits != [] {
      LastEditSameBackups(site, a, b, edits[1..], path);
      assert edits[0] in edits;
    }
  }

  /** What the replay leaves at `path`. */
  ghost predicate EndsWith(site: Site, files: map<string, Bytes>, edits: seq<Edit>, after: map<string, Bytes>,
                           path: string) {
    match LastEdit(site, files, edits, path)
    case Some(e) => e.backupPath in files && path in after && after[path] == files[e.backupPath]
    case None => (path in after <==> path in files) && (path in files ==> after[path] == files[path])
  }

  /** A replay leaves every file at the backup of its last edit that can be undone, and all other files alone. */
  lemma {:induction false} RestoreLeaves(site: Site, files: map<string, Bytes>, edits: seq<Edit>, path: string)
    requires ProperEdits(edits)
    ensures EndsWith(site, files, edits, RestoreAll(site, files, edits).0, path)
    decreases edits
  {
    if edits != [] {
      var e, files' := edits[0], RestoreOne(site, files, edits[0]).0;
      RestoreLeaves(site, files', edits[1..], path);
      forall x | x in edits ensures (x.backupPath in files <==> x.backupPath in files')
        && (x.backupPath in files ==> files'[x.backupPath] == files[x.backupPath])
      {
        NoBackupIsJson(x.backupPath);
        assert e in edits;
      }
      LastEditSameBackups(site, files, files', edits[1..], path);
      LastEditIs(site, files', edits[1..], path);
    }
  }

  /** Every edit of the newest record that can be undone would put back what is already there. */
  predicate ChangesNoFile(site: Site, disk: Disk)
    requires disk.records != []
  {
    var edits := disk.records[|disk.records| - 1].edits;
    forall e | e in edits ::
      match LastEdit(site, disk.files, edits, e.configPath)
      case Some(last) =>
        last.backupPath in disk.files && e.configPath in disk.files
        && disk.files[e.configPath] == disk.files[last.backupPath]
      case None => true
  }

  /** A rollback would do nothing: there is no record, or the newest one cannot be undone and no part of it shows. */
  predicate Idle(site: Site, disk: Disk) {
    disk.records == [] || (!CanRollBack(site, disk) && ChangesNoFile(site, disk))
  }

  lemma UntouchedEnds(site: Site, files: map<string, Bytes>, edits: seq<Edit>, path: string)
    requires forall e | e in edits :: e.configPath != path
    ensures LastEdit(site, files, edits, path) == None
  {
    LastEditIs(site, files, edits, path);
  }

  lemma ChangesNoFileIff(site: Site, disk: Disk)
    requires disk.records != [] && Proper(disk)
    ensures RestoreAll(site, disk.files, disk.records[|disk.records| - 1].edits).0 == disk.files <==>
        ChangesNoFile(site, disk)
  {
    var edits := disk.records[|disk.records| - 1].edits;
    assert disk.records[|disk.records| - 1] in disk.records;
    var after := RestoreAll(site, disk.files, edits).0;
    forall path ensures EndsWith(site, disk.files, edits, after, path) {
      RestoreLeaves(site, disk.files, edits, path);
    }
    if ChangesNoFile(site, disk) {
      forall path ensures (path in after <==> path in disk.files)
          && (path in after ==> after[path] == disk.files[path]) {
        assert EndsWith(site, disk.files, edits, after, path);
        if forall e | e in edits :: e.configPath != path {
          UntouchedEnds(site, disk.files, edits, path);
        }
      }
    } else {
      var e :| e in edits && LastEdit(site, disk.files, edits, e.configPath).Some?
        && var last := LastEdit(site, disk.files, edits, e.configPath).value;
           !(last.backupPath in disk.files && e.configPath in disk.files
             && disk.files[e.configPath] == disk.files[last.backupPath]);
      assert EndsWith(site, disk.files, edits, after, e.configPath);
    }
  }

  /** A rollback leaves files and records exactly as they were if and only if it is idle. */
  lemma RollbackIdleIff(site: Site, disk: Disk)
    requires Proper(disk)
    ensures Rollback(site, disk).0 == disk <==> Idle(site, disk)
  {
    RollbackSucceedsIff(site, disk);
    if disk.records != [] {
      ChangesNoFileIff(site, disk);
      if CanRollBack(site, disk) {
        assert |Rollback(site, disk).0.records| < |disk.records|;
      }
    }
  }

  /**
   What a rollback that fails does: the records stay, and every file ends at the backup of its last edit that can be
   undone.
   */
  lemma FailedRollbackLeaves(site: Site, disk: Disk, path: string)
    requires Proper(disk) && disk.records != [] && !CanRollBack(site, disk)
    ensures var after := Rollback(site, disk).0;
      after.records == disk.records
      && EndsWith(site, disk.files, disk.records[|disk.records| - 1].edits, after.files, path)
  {
    RollbackSucceedsIff(site, disk);
    assert disk.records[|disk.records| - 1] in disk.records;
    RestoreLeaves(site, disk.files, disk.records[|disk.records| - 1].edits, path);
  }

  /** A second rollback right after a failed one does nothing more. */
  lemma FailedRollbackSettles(site: Site, disk: Disk)
    requires Proper(disk) && !CanRollBack(site, disk)
    ensures var after := Rollback(site, disk).0; !Rollback(site, disk).1 && Rollback(site, after).0 == after
  {
    RollbackSucceedsIff(site, disk);
    if disk.records != [] {
      var edits := disk.records[|disk.records| - 1].edits;
      var after := Rollback(site, disk).0;
      assert disk.records[|disk.records| - 1] in disk.records;
      SettledBackups(site, disk.files, edits, after.files);
      RestoreSucceedsIff(site, after.files, edits);
      RestoreSucceedsIff(site, disk.files, edits);
      assert !AllRestorable(site, after.files, edits) || edits == [];
      ChangesNoFileAfter(site, disk);
      RollbackIdleIff(site, after);
    }
  }

  lemma SettledBackups(site: Site, files: map<string, Bytes>, edits: seq<Edit>, after: map<string, Bytes>)
    requires ProperEdits(edits) && after == RestoreAll(site, files, edits).0
    ensures forall e | e in edits ::
      (e.backupPath in files <==> e.backupPath in after)
      && (e.backupPath in files ==> after[e.backupPath] == files[e.backupPath])
    ensures AllRestorable(site, files, edits) <==> AllRestorable(site, after, edits)
  {
    forall e | e in edits ensures (e.backupPath in files <==> e.backupPath in after)
      && (e.backupPath in files ==> after[e.backupPath] == files[e.backupPath])
    {
      NoBackupIsJson(e.backupPath);
      RestoreLeaves(site, files, edits, e.backupPath);
      UntouchedEnds(site, files, edits, e.backupPath);
    }
    forall i | 0 <= i < |edits| ensures RestorableAt(site, files, edits, i) <==> RestorableAt(site, after, edits, i) {
      assert edits[i] in edits;
    }
  }

  lemma ChangesNoFileAfter(site: Site, disk: Disk)
    requires Proper(disk) && disk.records != [] && !CanRollBack(site, disk)
    ensures var after := Rollback(site, disk).0;
      after.records == disk.records && Proper(after) && ChangesNoFile(site, after)
  {
    RollbackSucceedsIff(site, disk);
    var edits := disk.records[|disk.records| - 1].edits;
    var after := Rollback(site, disk).0;
    assert disk.records[|disk.records| - 1] in disk.records;
    SettledBackups(site, disk.files, edits, after.files);
    forall e | e in edits && LastEdit(site, after.files, edits, e.configPath).Some?
      ensures var last := LastEdit(site, after.files, edits, e.configPath).value;
        last.backupPath in after.files && e.configPath in after.files
        && after.files[e.configPath] == after.files[last.backupPath]
    {
      LastEditSameBackups(site, disk.files, after.files, edits, e.configPath);
      LastEditIs(site, disk.files, edits, e.configPath);
      RestoreLeaves(site, disk.files, edits, e.configPath);
    }
  }

  /** Two rollbacks leave everything as it was exactly when one would. */
  lemma TwoRollbacksIdleIff(site: Site, disk: Disk)
    requires Proper(disk)
    ensures Rollback(site, Rollback(site, disk).0).0 == disk <==> Idle(site, disk)
  {
    RollbackIdleIff(site, disk);
    RollbackSucceedsIff(site, disk);
    RollbackPopsOnSuccessOnly(site, disk);
    RollbackPopsOnSuccessOnly(site, Rollback(site, disk).0);
    if CanRollBack(site, disk) {
      assert |Rollback(site, Rollback(site, disk).0).0.records| < |disk.records|;
    } else {
      FailedRollbackSettles(site, disk);
    }
  }

  // ----- the records stay proper -----

  lemma RollbackKeepsProper(site: Site, disk: Disk)
    requires Proper(disk)
    ensures Proper(Rollback(site, disk).0)
  {
  }

  lemma AppliedKeepsProper(site: Site, disk: Disk, spec: SafeSpec, probe: Probe, stamp: string)
    requires Proper(disk)
    ensures Proper(Applied(site, disk, spec, probe, stamp).0)
  {
    var op := Op(spec, probe, stamp);
    if Pushes(site, disk, op) {
      WriteFacts(site, disk, op);
      BackupIsNotConfig(site.backupDir, spec.fixId, ConfigPath(site, spec.configPath), stamp);
    }
  }

  lemma UpdateFieldIsProper(site: Site, files: map<string, Bytes>, relative: string, path: Path, v: Json, fixId: string,
                            stamp: string)
    ensures var r := UpdateField(site, files, relative, path, v, fixId, stamp).1;
      r.edit.Some? ==> ProperEdits([r.edit.value])
  {
    BackupIsNotConfig(site.backupDir, fixId, ConfigPath(site, relative), stamp);
  }

  lemma {:induction false} UpdateFieldsAreProper(site: Site, files: map<string, Bytes>, fields: seq<(Path, Json)>,
                                                 fixId: string, stamps: seq<string>)
    requires |stamps| == |fields|
    ensures ProperEdits(Edits(UpdateFields(site, files, fields, fixId, stamps).1))
    decreases fields
  {
    if fields != [] {
      var (files', first) := UpdateField(site, files, "config.json", fields[0].0, fields[0].1, fixId, stamps[0]);
      var rest := UpdateFields(site, files', fields[1..], fixId, stamps[1..]).1;
      UpdateFieldsAreProper(site, files', fields[1..], fixId, stamps[1..]);
      UpdateFieldIsProper(site, files, "config.json", fields[0].0, fields[0].1, fixId, stamps[0]);
      assert ([first] + rest)[1..] == rest;
    }
  }

  /** Whatever fix an executor applies, the records it leaves are proper. */
  lemma AppliedFixKeepsProper(site: Site, catalog: Catalog, disk: Disk, name: string, probe: Probe, stamps: Stamps)
    requires Proper(disk)
    ensures Proper(AppliedFix(site, catalog, disk, name, probe, stamps).0)
  {
    var fixId := Strip(name);
    match SpecByFix(catalog.safe, fixId)
    case Some(spec) => AppliedKeepsProper(site, disk, spec, probe, stamps(0));
    case None =>
      var fields := LegacyEdits(catalog.legacy, fixId);
      UpdateFieldsAreProper(site, disk.files, fields, fixId, seq(|fields|, i requires 0 <= i => stamps(i)));
  }
}
