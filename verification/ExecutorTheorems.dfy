/** Reversibility of applied fixes, and what a run of applied fixes can do to a configuration. */
module ExecutorTheorems {
  import opened Wrappers
  import opened ConfigTree
  import opened Semantics
  import opened Registry
  import opened Hosts
  import opened Executor

  /** One application of a safe fix. */
  datatype Op = Op(spec: SafeSpec, probe: Probe, stamp: string)

  function Step(site: Site, disk: Disk, op: Op): Disk {
    Applied(site, disk, op.spec, op.probe, op.stamp).0
  }

  /** The edit an application makes, if it makes one. */
  function EditOf(site: Site, disk: Disk, op: Op): Option<Edit> {
    ApplySpec(site, disk.files, op.spec, op.probe, op.stamp).2
  }

  predicate Pushes(site: Site, disk: Disk, op: Op) {
    EditOf(site, disk, op).Some?
  }

  function Backup(site: Site, op: Op): string {
    BackupPath(site.backupDir, op.spec.fixId, ConfigPath(site, op.spec.configPath), op.stamp)
  }

  /** Everything there is to know about an application that writes. */
  lemma WriteFacts(site: Site, disk: Disk, op: Op)
    requires Pushes(site, disk, op)
    ensures ReadTree(site, disk.files, op.spec.configPath).Some?
    ensures var data := ReadTree(site, disk.files, op.spec.configPath).value;
      var e := EditOf(site, disk, op).value;
      var vs := Verdicts(data, op.spec.candidates, op.probe);
      var i := FirstWritable(vs);
      && i < |op.spec.candidates|
      && Lookup(data, op.spec.candidates[i].path) == Some(e.oldValue)
      && e == Edit(ConfigPath(site, op.spec.configPath), Backup(site, op), op.spec.candidates[i].path, e.oldValue,
                   op.spec.candidates[i].target)
      && VerdictOf(data, op.spec.candidates[i], op.probe) == Writable
      && !PyEq(e.oldValue, e.newValue)
      && Step(site, disk, op) ==
         Disk(WriteField(site, disk.files, op.spec.configPath, e.path, e.newValue, e.backupPath),
              disk.records + [ApplyRecord(op.spec.fixId, [e])])
    ensures site.host.inside(ConfigPath(site, op.spec.configPath), site.projectDir)
    ensures ConfigPath(site, op.spec.configPath) in disk.files
    ensures ConfigPath(site, op.spec.configPath) != Backup(site, op)
  {
    BackupIsNotConfig(site.backupDir, op.spec.fixId, ConfigPath(site, op.spec.configPath), op.stamp);
  }

  /** An application that does not write leaves the files and the record stack exactly as they were. */
  lemma NoWriteNoChange(site: Site, disk: Disk, op: Op)
    ensures !Pushes(site, disk, op) <==> Step(site, disk, op).records == disk.records
    ensures !Pushes(site, disk, op) ==> Step(site, disk, op) == disk
  {
    if Pushes(site, disk, op) {
      assert |Step(site, disk, op).records| == |disk.records| + 1;
    }
  }

  /**
   Rolling back right after an application that wrote restores every byte of every file and the record
   stack. Only the backup file stays behind.
   */
  lemma RollbackUndoesApply(site: Site, disk: Disk, op: Op)
    requires Pushes(site, disk, op)
    ensures var config := ConfigPath(site, op.spec.configPath);
      config in disk.files &&
      Rollback(site, Step(site, disk, op)) == (Disk(disk.files[Backup(site, op) := disk.files[config]], disk.records),
                                               true)
  {
    WriteFacts(site, disk, op);
    var e := EditOf(site, disk, op).value;
    var d1 := Step(site, disk, op);
    assert d1.records[|d1.records| - 1].edits == [e];
    assert d1.records[..|d1.records| - 1] == disk.records;
    assert [e][1..] == [];
    assert RestoreAll(site, d1.files, [e]) == (d1.files[e.configPath := d1.files[e.backupPath]], true);
    assert d1.files[e.configPath := d1.files[e.backupPath]] == disk.files[e.backupPath := disk.files[e.configPath]];
  }

  /** A rollback that fails keeps the stack; one that succeeds takes off exactly the newest record. */
  lemma RollbackPopsOnSuccessOnly(site: Site, disk: Disk)
    ensures var (d, ok) := Rollback(site, disk);
      && (!ok ==> d.records == disk.records)
      && (ok ==> disk.records != [] && d.records == disk.records[..|disk.records| - 1])
      && (disk.records == [] ==> !ok && d == disk)
  {
  }

  // ----- runs of applications, undone in reverse -----

  /** `ds` are the disks before, between and after the applications of a run. */
  ghost predicate IsRun(site: Site, ds: seq<Disk>, ops: seq<Op>) {
    |ds| == |ops| + 1 && forall i | 0 <= i < |ops| :: ds[i + 1] == Step(site, ds[i], ops[i])
  }

  /** How many of the applications from `lo` up to `hi` wrote something. */
  function PushCount(site: Site, ds: seq<Disk>, ops: seq<Op>, lo: nat, hi: nat): nat
    requires lo <= hi <= |ops| <= |ds|
    decreases hi - lo
  {
    if lo == hi then 0
    else
      var n := PushCount(site, ds, ops, lo, hi - 1);
      if Pushes(site, ds[hi - 1], ops[hi - 1]) then n + 1 else n
  }

  /** `n` rollbacks in a row. True when all of them succeeded. */
  function RollbackTimes(site: Site, disk: Disk, n: nat): (Disk, bool)
    decreases n
  {
    if n == 0 then (disk, true)
    else
      var (d1, ok1) := Rollback(site, disk);
      var (d2, ok2) := RollbackTimes(site, d1, n - 1);
      (d2, ok1 && ok2)
  }

  /** The backups that records rely on. */
  function BackupsOf(records: seq<ApplyRecord>): set<string> {
    set r, e | r in records && e in r.edits :: e.backupPath
  }

  /** Every application that writes uses a backup name that no record on the stack relies on. */
  predicate FreshBackups(site: Site, ds: seq<Disk>, ops: seq<Op>)
    requires |ops| <= |ds|
  {
    forall i | 0 <= i < |ops| && Pushes(site, ds[i], ops[i]) :: Backup(site, ops[i]) !in BackupsOf(ds[i].records)
  }

  /** The file is one that restoring has to get right: any file but a backup nobody relies on. */
  predicate Matters(records: seq<ApplyRecord>, p: string) {
    IsBackupPath(p) ==> p in BackupsOf(records)
  }

  /** Two disks that differ at most in backups that no record relies on. */
  ghost predicate SameState(a: Disk, b: Disk) {
    && a.records == b.records
    && forall p | Matters(a.records, p) ::
        (p in a.files <==> p in b.files) && (p in a.files ==> a.files[p] == b.files[p])
  }

  lemma {:induction false} RestoreRespects(site: Site, a: map<string, Bytes>, b: map<string, Bytes>, edits: seq<Edit>,
                                           records: seq<ApplyRecord>)
    requires forall e | e in edits :: e.backupPath in BackupsOf(records)
    requires forall p | Matters(records, p) :: (p in a <==> p in b) && (p in a ==> a[p] == b[p])
    ensures RestoreAll(site, a, edits).1 == RestoreAll(site, b, edits).1
    ensures var a', b' := RestoreAll(site, a, edits).0, RestoreAll(site, b, edits).0;
      forall p | Matters(records, p) :: (p in a' <==> p in b') && (p in a' ==> a'[p] == b'[p])
    decreases edits
  {
    if edits != [] {
      assert edits[0] in edits;
      assert Matters(records, edits[0].backupPath);
      RestoreRespects(site, RestoreOne(site, a, edits[0]).0, RestoreOne(site, b, edits[0]).0, edits[1..], records);
    }
  }

  lemma RollbackRespects(site: Site, a: Disk, b: Disk)
    requires SameState(a, b)
    ensures Rollback(site, a).1 == Rollback(site, b).1
    ensures SameState(Rollback(site, a).0, Rollback(site, b).0)
  {
    if a.records != [] {
      var latest := a.records[|a.records| - 1];
      assert latest in a.records;
      RestoreRespects(site, a.files, b.files, latest.edits, a.records);
      var shorter := a.records[..|a.records| - 1];
      assert forall p | Matters(shorter, p) :: Matters(a.records, p);
    }
  }

  lemma {:induction false} RollbackTimesRespects(site: Site, a: Disk, b: Disk, n: nat)
    requires SameState(a, b)
    ensures RollbackTimes(site, a, n).1 == RollbackTimes(site, b, n).1
    ensures SameState(RollbackTimes(site, a, n).0, RollbackTimes(site, b, n).0)
    decreases n
  {
    if n > 0 {
      RollbackRespects(site, a, b);
      RollbackTimesRespects(site, Rollback(site, a).0, Rollback(site, b).0, n - 1);
    }
  }

  lemma SameStateTransitive(a: Disk, b: Disk, c: Disk)
    requires SameState(a, b) && SameState(b, c)
    ensures SameState(a, c)
  {
  }

  lemma PushThenRollback(site: Site, d: Disk, op: Op)
    requires Pushes(site, d, op) && Backup(site, op) !in BackupsOf(d.records)
    ensures Rollback(site, Step(site, d, op)).1 && SameState(d, Rollback(site, Step(site, d, op)).0)
  {
    RollbackUndoesApply(site, d, op);
    BackupIsNotConfig(site.backupDir, op.spec.fixId, ConfigPath(site, op.spec.configPath), op.stamp);
  }

  lemma OneMoreRollback(site: Site, disk: Disk, d: Disk, d1: Disk, n: nat)
    requires Rollback(site, d1).1 && SameState(d, Rollback(site, d1).0)
    requires RollbackTimes(site, d, n).1 && SameState(disk, RollbackTimes(site, d, n).0)
    ensures RollbackTimes(site, d1, n + 1).1 && SameState(disk, RollbackTimes(site, d1, n + 1).0)
  {
    var r := Rollback(site, d1).0;
    RollbackTimesRespects(site, d, r, n);
    SameStateTransitive(disk, RollbackTimes(site, d, n).0, RollbackTimes(site, r, n).0);
  }

  ghost predicate UndoneBy(site: Site, disk: Disk, after: Disk, n: nat) {
    RollbackTimes(site, after, n).1 && SameState(disk, RollbackTimes(site, after, n).0)
  }

  lemma UndoneAfterStep(site: Site, disk: Disk, d: Disk, op: Op, n: nat)
    requires UndoneBy(site, disk, d, n)
    requires Pushes(site, d, op) ==> Backup(site, op) !in BackupsOf(d.records)
    ensures UndoneBy(site, disk, Step(site, d, op), if Pushes(site, d, op) then n + 1 else n)
  {
    if Pushes(site, d, op) {
      PushThenRollback(site, d, op);
      OneMoreRollback(site, disk, d, Step(site, d, op), n);
    } else {
      NoWriteNoChange(site, d, op);
    }
  }

  /**
   Undoing is last in, first out: from any point of a run of applications, as many rollbacks as there were
   writes since an earlier point all succeed and bring back what there was at that point: every configuration
   file, every backup still needed, and the record stack.
   */
  lemma {:induction false} RollbacksUndoRun(site: Site, ds: seq<Disk>, ops: seq<Op>, lo: nat, hi: nat)
    requires IsRun(site, ds, ops) && FreshBackups(site, ds, ops) && lo <= hi <= |ops|
    ensures UndoneBy(site, ds[lo], ds[hi], PushCount(site, ds, ops, lo, hi))
    decreases hi - lo
  {
    if lo < hi {
      RollbacksUndoRun(site, ds, ops, lo, hi - 1);
      var i := hi - 1;
      UndoneAfterStep(site, ds[lo], ds[i], ops[i], PushCount(site, ds, ops, lo, i));
      assert ds[hi] == Step(site, ds[i], ops[i]);
    } else {
      assert UndoneBy(site, ds[lo], ds[lo], 0);
    }
  }

  // ----- where exact restoration ends -----

  lemma WritingChangesText(site: Site, disk: Disk, op: Op)
    requires Faithful(site.host) && Pushes(site, disk, op)
    ensures ConfigPath(site, op.spec.configPath) in disk.files
    ensures var config := ConfigPath(site, op.spec.configPath);
      Step(site, disk, op).files[config] != disk.files[config]
  {
    WriteFacts(site, disk, op);
    var config := ConfigPath(site, op.spec.configPath);
    var e := EditOf(site, disk, op).value;
    var data := ReadTree(site, disk.files, op.spec.configPath).value;
    LookupAfterUpdate(data, e.path, e.newValue);
    assert site.host.parse(Step(site, disk, op).files[config]) == Some(Update(data, e.path, e.newValue));
    if Step(site, disk, op).files[config] == disk.files[config] {
      assert e.oldValue == e.newValue;
      PyEqReflexive(e.oldValue);
    }
  }

  /**
   Two writes to one file: two rollbacks bring the original text back exactly when the two backups have
   different names, that is, unless one fix wrote twice within a second.
   */
  lemma TwoRollbacksRestoreIff(site: Site, disk: Disk, a: Op, b: Op)
    requires Faithful(site.host)
    requires a.spec.configPath == b.spec.configPath
    requires Pushes(site, disk, a) && Pushes(site, Step(site, disk, a), b)
    ensures var config := ConfigPath(site, a.spec.configPath);
      var d := RollbackTimes(site, Step(site, Step(site, disk, a), b), 2).0;
      config in disk.files && config in d.files &&
      (d.files[config] == disk.files[config] <==> Backup(site, a) != Backup(site, b))
  {
    var config := ConfigPath(site, a.spec.configPath);
    var d1 := Step(site, disk, a);
    RollbackUndoesApply(site, d1, b);
    WriteFacts(site, disk, a);
    WriteFacts(site, d1, b);
    WritingChangesText(site, disk, a);
    var r1 := Rollback(site, Step(site, d1, b)).0;
    var e := EditOf(site, disk, a).value;
    assert r1.records[|r1.records| - 1].edits == [e];
    assert [e][1..] == [];
    assert RestoreAll(site, r1.files, [e]).0 == r1.files[config := r1.files[e.backupPath]];
    assert RollbackTimes(site, Step(site, d1, b), 2).0 == Rollback(site, r1).0 by {
      assert RollbackTimes(site, r1, 1).0 == RollbackTimes(site, Rollback(site, r1).0, 0).0;
    }
  }

  /**
   A record of two edits on one file, restored in the order in which they were made: the file ends with the
   contents of the second backup, so the first edit stays in place.
   */
  lemma TwoEditRecordEndsAtLastBackup(site: Site, files: map<string, Bytes>, first: Edit, second: Edit)
    requires first.configPath == second.configPath
    requires site.host.inside(first.configPath, site.projectDir)
    requires first.backupPath in files && second.backupPath in files && second.backupPath != first.configPath
    ensures var (restored, ok) := RestoreAll(site, files, [first, second]);
      ok && first.configPath in restored && restored[first.configPath] == files[second.backupPath]
  {
    var files1 := files[first.configPath := files[first.backupPath]];
    assert [first, second][1..] == [second] && [second][1..] == [];
    assert RestoreAll(site, files1, [second]) == (files1[second.configPath := files1[second.backupPath]], true);
    assert RestoreAll(site, files, [first, second]) == RestoreAll(site, files1, [second]);
  }

  /** The field exists and has another value than the one wanted. */
  predicate NeedsWrite(data: Json, path: Path, v: Json) {
    Lookup(data, path).Some? && !PyEq(Lookup(data, path).value, v)
  }

  lemma UpdateFieldWrites(site: Site, files: map<string, Bytes>, relative: string, path: Path, v: Json, fixId: string,
                          stamp: string)
    requires Faithful(site.host)
    requires ReadTree(site, files, relative).Some? && NeedsWrite(ReadTree(site, files, relative).value, path, v)
    ensures var config := ConfigPath(site, relative);
      var backup := BackupPath(site.backupDir, fixId, config, stamp);
      var data := ReadTree(site, files, relative).value;
      var (files', r) := UpdateField(site, files, relative, path, v, fixId, stamp);
      && config in files && config in files' && backup in files' && config != backup
      && r == EditResult(true, false, Some(Edit(config, backup, path, Lookup(data, path).value, v)))
      && ReadTree(site, files', relative) == Some(Update(data, path, v))
      && files'[backup] == files[config] && files'[config] != files[config]
  {
    var config := ConfigPath(site, relative);
    var data := ReadTree(site, files, relative).value;
    BackupIsNotConfig(site.backupDir, fixId, config, stamp);
    LookupAfterUpdate(data, path, v);
    var text := site.host.render(files[config], Update(data, path, v));
    assert site.host.parse(text) == Some(Update(data, path, v));
    if text == files[config] {
      PyEqReflexive(v);
    }
  }

  lemma UpdateFieldKeeps(site: Site, files: map<string, Bytes>, relative: string, path: Path, v: Json, fixId: string,
                         stamp: string)
    requires ReadTree(site, files, relative).Some? && !NeedsWrite(ReadTree(site, files, relative).value, path, v)
    ensures UpdateField(site, files, relative, path, v, fixId, stamp) ==
      (files, if Lookup(ReadTree(site, files, relative).value, path).Some? then NO_OP_EDIT else FAILED_EDIT)
  {
  }

  const CONFIG := "config.json"

  lemma TwoFieldsUnfold(site: Site, files: map<string, Bytes>, p: Path, v: Json, q: Path, w: Json, fixId: string,
                        s: string, t: string)
    ensures var (files1, r1) := UpdateField(site, files, CONFIG, p, v, fixId, s);
      var (files2, r2) := UpdateField(site, files1, CONFIG, q, w, fixId, t);
      UpdateFields(site, files, [(p, v), (q, w)], fixId, [s, t]) == (files2, [r1, r2])
  {
    var files1 := UpdateField(site, files, CONFIG, p, v, fixId, s).0;
    assert [(p, v), (q, w)][1..] == [(q, w)] && [(q, w)][1..] == [] && [s, t][1..] == [t] && [t][1..] == [];
    assert UpdateFields(site, files1, [(q, w)], fixId, [t]).1 ==
           [UpdateField(site, files1, CONFIG, q, w, fixId, t).1] + [];
    var r1, r2 := UpdateField(site, files, CONFIG, p, v, fixId, s).1,
        UpdateField(site, files1, CONFIG, q, w, fixId, t).1;
    assert [r1] + ([r2] + []) == [r1, r2];
    assert UpdateFields(site, files, [(p, v), (q, w)], fixId, [s, t]) ==
           (UpdateFields(site, files1, [(q, w)], fixId, [t]).0, [r1] + UpdateFields(site, files1, [(q, w)], fixId,
            [t]).1);
  }

  lemma TwoResults(r1: EditResult, r2: EditResult)
    ensures AllSucceed([r1, r2]) <==> r1.success && r2.success
    ensures Edits([r1, r2]) ==
      (if r1.success && r1.edit.Some? then [r1.edit.value] else []) +
      (if r2.success && r2.edit.Some? then [r2.edit.value] else [])
  {
    assert [r1, r2][0] in [r1, r2] && [r1, r2][1] in [r1, r2];
    assert [r1, r2][1..] == [r2] && [r2][1..] == [];
    assert Edits([r2]) == if r2.success && r2.edit.Some? then [r2.edit.value] else [];
  }

  /**
   A fix that writes two fields of one file, when both fields change: its rollback succeeds and yet leaves
   the first field changed, because the record is replayed first edit first.
   */
  lemma TwoFieldRollbackKeepsFirstEdit(site: Site, disk: Disk, p: Path, v: Json, q: Path, w: Json, fixId: string,
                                       s: string, t: string)
    requires Faithful(site.host) && Diverge(p, q)
    requires ReadTree(site, disk.files, CONFIG).Some?
    requires var data := ReadTree(site, disk.files, CONFIG).value; NeedsWrite(data, p, v) && NeedsWrite(data, q, w)
    ensures var config := ConfigPath(site, CONFIG);
      var (files, results) := UpdateFields(site, disk.files, [(p, v), (q, w)], fixId, [s, t]);
      var d := Disk(files, Recorded(disk.records, fixId, results));
      var (undone, ok) := Rollback(site, d);
      && AllSucceed(results) && ok && undone.records == disk.records
      && config in disk.files && config in undone.files && undone.files[config] != disk.files[config]
      && site.host.parse(undone.files[config]) == Some(Update(ReadTree(site, disk.files, CONFIG).value, p, v))
  {
    var config := ConfigPath(site, CONFIG);
    var data := ReadTree(site, disk.files, CONFIG).value;
    TwoFieldsUnfold(site, disk.files, p, v, q, w, fixId, s, t);
    UpdateFieldWrites(site, disk.files, CONFIG, p, v, fixId, s);
    var (files1, r1) := UpdateField(site, disk.files, CONFIG, p, v, fixId, s);
    UpdateFrame(data, p, v, q);
    UpdateFieldWrites(site, files1, CONFIG, q, w, fixId, t);
    var (files2, r2) := UpdateField(site, files1, CONFIG, q, w, fixId, t);
    TwoResults(r1, r2);
    var e1, e2 := r1.edit.value, r2.edit.value;
    var d := Disk(files2, disk.records + [ApplyRecord(fixId, [e1, e2])]);
    assert d.records[|d.records| - 1].edits == [e1, e2] && d.records[..|d.records| - 1] == disk.records;
    TwoEditRecordEndsAtLastBackup(site, files2, e1, e2);
  }

  lemma SingleEditRollback(site: Site, files: map<string, Bytes>, records: seq<ApplyRecord>, fixId: string, e: Edit)
    requires e.backupPath in files && site.host.inside(e.configPath, site.projectDir)
    ensures Rollback(site, Disk(files, records + [ApplyRecord(fixId, [e])])) ==
      (Disk(files[e.configPath := files[e.backupPath]], records), true)
  {
    var d := Disk(files, records + [ApplyRecord(fixId, [e])]);
    assert d.records[|d.records| - 1].edits == [e] && d.records[..|d.records| - 1] == records;
    assert [e][1..] == [];
    assert RestoreAll(site, files, [e]) == (files[e.configPath := files[e.backupPath]], true);
  }

  /** When only one of the two fields changes, the rollback of the fix restores the file byte for byte. */
  lemma TwoFieldRollbackExactForOneEdit(site: Site, disk: Disk, p: Path, v: Json, q: Path, w: Json, fixId: string,
                                        s: string, t: string)
    requires Faithful(site.host) && Diverge(p, q)
    requires ReadTree(site, disk.files, CONFIG).Some?
    requires var data := ReadTree(site, disk.files, CONFIG).value;
      && Lookup(data, p).Some? && Lookup(data, q).Some?
      && (NeedsWrite(data, p, v) <==> !NeedsWrite(data, q, w))
    ensures var config := ConfigPath(site, CONFIG);
      var (files, results) := UpdateFields(site, disk.files, [(p, v), (q, w)], fixId, [s, t]);
      var d := Disk(files, Recorded(disk.records, fixId, results));
      var (undone, ok) := Rollback(site, d);
      && AllSucceed(results) && ok && undone.records == disk.records
      && config in disk.files && config in undone.files && undone.files[config] == disk.files[config]
  {
    var config := ConfigPath(site, CONFIG);
    var data := ReadTree(site, disk.files, CONFIG).value;
    TwoFieldsUnfold(site, disk.files, p, v, q, w, fixId, s, t);
    var (files1, r1) := UpdateField(site, disk.files, CONFIG, p, v, fixId, s);
    if NeedsWrite(data, p, v) {
      UpdateFieldWrites(site, disk.files, CONFIG, p, v, fixId, s);
      UpdateFrame(data, p, v, q);
      UpdateFieldKeeps(site, files1, CONFIG, q, w, fixId, t);
    } else {
      UpdateFieldKeeps(site, disk.files, CONFIG, p, v, fixId, s);
      UpdateFieldWrites(site, disk.files, CONFIG, q, w, fixId, t);
    }
    var (files2, r2) := UpdateField(site, files1, CONFIG, q, w, fixId, t);
    TwoResults(r1, r2);
    var e := if r1.edit.Some? then r1.edit.value else r2.edit.value;
    assert Edits([r1, r2]) == [e];
    SingleEditRollback(site, files2, disk.records, fixId, e);
  }

  /**
   The same fix can write without leaving a record: exactly when one field is missing and the other one
   changes. The caller is told the fix failed, and no rollback will ever undo the write.
   */
  lemma TwoFieldUnrecordedWriteIff(site: Site, disk: Disk, p: Path, v: Json, q: Path, w: Json, fixId: string,
                                   s: string, t: string)
    requires Faithful(site.host) && Diverge(p, q)
    requires ReadTree(site, disk.files, CONFIG).Some?
    ensures var data := ReadTree(site, disk.files, CONFIG).value;
      var (files, results) := UpdateFields(site, disk.files, [(p, v), (q, w)], fixId, [s, t]);
      (files != disk.files && Recorded(disk.records, fixId, results) == disk.records) <==>
        || (Lookup(data, p).None? && NeedsWrite(data, q, w))
        || (Lookup(data, q).None? && NeedsWrite(data, p, v))
  {
    var data := ReadTree(site, disk.files, CONFIG).value;
    TwoFieldsUnfold(site, disk.files, p, v, q, w, fixId, s, t);
    var (files1, r1) := UpdateField(site, disk.files, CONFIG, p, v, fixId, s);
    var (files2, r2) := UpdateField(site, files1, CONFIG, q, w, fixId, t);
    TwoResults(r1, r2);
    if NeedsWrite(data, p, v) {
      UpdateFieldWrites(site, disk.files, CONFIG, p, v, fixId, s);
      UpdateFrame(data, p, v, q);
      if NeedsWrite(data, q, w) {
        UpdateFieldWrites(site, files1, CONFIG, q, w, fixId, t);
        RecordedGrows(disk.records, fixId, [r1, r2]);
      } else {
        UpdateFieldKeeps(site, files1, CONFIG, q, w, fixId, t);
        if r2.success {
          RecordedGrows(disk.records, fixId, [r1, r2]);
        }
      }
    } else {
      UpdateFieldKeeps(site, disk.files, CONFIG, p, v, fixId, s);
      if NeedsWrite(data, q, w) {
        UpdateFieldWrites(site, disk.files, CONFIG, q, w, fixId, t);
        if r1.success {
          RecordedGrows(disk.records, fixId, [r1, r2]);
        }
      } else {
        UpdateFieldKeeps(site, disk.files, CONFIG, q, w, fixId, t);
      }
    }
  }

  lemma RecordedGrows(records: seq<ApplyRecord>, fixId: string, results: seq<EditResult>)
    requires AllSucceed(results) && Edits(results) != []
    ensures Recorded(records, fixId, results) != records
  {
    assert |Recorded(records, fixId, results)| == |records| + 1;
  }

  /** The fix that writes two fields, in the legacy table that ships with the executors. */
  predicate HasGpuFix(legacy: LegacyTable) {
    "fix-gpu-2" in legacy &&
    legacy["fix-gpu-2"] == [(["precision"], Str("bf16")), (["gradient_checkpointing"], Bool(true))]
  }

  /**
   For the two-field fix in use: once it has applied and written something, its rollback brings the original
   text back exactly when it is not the case that both fields had to change.
   */
  lemma GpuFixRollbackRestoresIff(site: Site, legacy: LegacyTable, disk: Disk, stamps: Stamps)
    requires Faithful(site.host) && HasGpuFix(legacy)
    requires var (d, ok) := AppliedLegacy(site, legacy, disk, "fix-gpu-2", stamps); ok && d.records != disk.records
    ensures var config := ConfigPath(site, CONFIG);
      var (undone, ok) := Rollback(site, AppliedLegacy(site, legacy, disk, "fix-gpu-2", stamps).0);
      && ok && undone.records == disk.records && config in disk.files && config in undone.files
      && ReadTree(site, disk.files, CONFIG).Some?
      && var data := ReadTree(site, disk.files, CONFIG).value;
         (undone.files[config] == disk.files[config] <==>
          !(NeedsWrite(data, ["precision"], Str("bf16")) && NeedsWrite(data, ["gradient_checkpointing"], Bool(true))))
  {
    var p, v, q, w := ["precision"], Str("bf16"), ["gradient_checkpointing"], Bool(true);
    var both := seq(|LegacyEdits(legacy, "fix-gpu-2")|, i requires 0 <= i => stamps(i));
    assert both == [stamps(0), stamps(1)];
    TwoFieldOutcome(site, disk, p, v, q, w, "fix-gpu-2", stamps(0), stamps(1));
  }

  lemma TwoFieldOutcome(site: Site, disk: Disk, p: Path, v: Json, q: Path, w: Json, fixId: string, s: string, t: string)
    requires Faithful(site.host) && Diverge(p, q)
    requires var (files, results) := UpdateFields(site, disk.files, [(p, v), (q, w)], fixId, [s, t]);
      AllSucceed(results) && Recorded(disk.records, fixId, results) != disk.records
    ensures var config := ConfigPath(site, CONFIG);
      var (files, results) := UpdateFields(site, disk.files, [(p, v), (q, w)], fixId, [s, t]);
      var (undone, ok) := Rollback(site, Disk(files, Recorded(disk.records, fixId, results)));
      && ok && undone.records == disk.records && config in disk.files && config in undone.files
      && ReadTree(site, disk.files, CONFIG).Some?
      && var data := ReadTree(site, disk.files, CONFIG).value;
         (undone.files[config] == disk.files[config] <==> !(NeedsWrite(data, p, v) && NeedsWrite(data, q, w)))
  {
    TwoFieldsUnfold(site, disk.files, p, v, q, w, fixId, s, t);
    var (files1, r1) := UpdateField(site, disk.files, CONFIG, p, v, fixId, s);
    var (files2, r2) := UpdateField(site, files1, CONFIG, q, w, fixId, t);
    TwoResults(r1, r2);
    assert ReadTree(site, disk.files, CONFIG).Some?;
    var data := ReadTree(site, disk.files, CONFIG).value;
    if NeedsWrite(data, p, v) {
      UpdateFieldWrites(site, disk.files, CONFIG, p, v, fixId, s);
      UpdateFrame(data, p, v, q);
      if NeedsWrite(data, q, w) {
        TwoFieldRollbackKeepsFirstEdit(site, disk, p, v, q, w, fixId, s, t);
      } else {
        UpdateFieldKeeps(site, files1, CONFIG, q, w, fixId, t);
        TwoFieldRollbackExactForOneEdit(site, disk, p, v, q, w, fixId, s, t);
      }
    } else {
      UpdateFieldKeeps(site, disk.files, CONFIG, p, v, fixId, s);
      if !NeedsWrite(data, q, w) {
        UpdateFieldKeeps(site, disk.files, CONFIG, q, w, fixId, t);
      } else {
        TwoFieldRollbackExactForOneEdit(site, disk, p, v, q, w, fixId, s, t);
      }
    }
  }
}
