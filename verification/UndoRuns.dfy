/** Runs in which fixes are applied and rolled back in any order: the record stack undoes them last in, first out. */
module UndoRuns {
  import opened Wrappers
  import opened ConfigTree
  import opened Semantics
  import opened Registry
  import opened Hosts
  import opened Executor
  import opened ExecutorTheorems

  /** A registry fix, a fix outside the registry by its name, or a rollback of the newest record. */
  datatype Change = AppliesSafe(op: Op) | AppliesLegacy(fixId: string, stamps: Stamps) | RollsBackLatest

  function ChangeStep(site: Site, legacy: LegacyTable, disk: Disk, c: Change): Disk {
    match c
    case AppliesSafe(op) => Step(site, disk, op)
    case AppliesLegacy(fixId, stamps) => AppliedLegacy(site, legacy, disk, fixId, stamps).0
    case RollsBackLatest => Rollback(site, disk).0
  }

  /** The change writes one field at most. Only the fix with two fields does not. */
  predicate OneField(legacy: LegacyTable, c: Change) {
    c.AppliesLegacy? ==> |LegacyEdits(legacy, c.fixId)| <= 1
  }

  predicate Grows(before: Disk, after: Disk) {
    |after.records| > |before.records|
  }

  /** `after` comes from `before` by one recorded write of one file, saved first under a name no record relies on. */
  ghost predicate IsPush(site: Site, before: Disk, after: Disk, fixId: string, e: Edit, text: Bytes) {
    && e.configPath in before.files && e.configPath != e.backupPath && IsBackupPath(e.backupPath)
    && site.host.inside(e.configPath, site.projectDir)
    && after == Disk(before.files[e.backupPath := before.files[e.configPath]][e.configPath := text],
                     before.records + [ApplyRecord(fixId, [e])])
  }

  /** The backup of the newest record's first edit. */
  function NewestBackup(disk: Disk): string {
    if disk.records == [] || disk.records[|disk.records| - 1].edits == [] then ""
    else disk.records[|disk.records| - 1].edits[0].backupPath
  }

  lemma SafeStepPushes(site: Site, disk: Disk, op: Op)
    ensures var after := Step(site, disk, op);
      if Grows(disk, after) then exists fixId, e, text :: IsPush(site, disk, after, fixId, e, text) else after == disk
  {
    NoWriteNoChange(site, disk, op);
    if Pushes(site, disk, op) {
      WriteFacts(site, disk, op);
      BackupIsNotConfig(site.backupDir, op.spec.fixId, ConfigPath(site, op.spec.configPath), op.stamp);
      var e, after := EditOf(site, disk, op).value, Step(site, disk, op);
      assert IsPush(site, disk, after, op.spec.fixId, e, after.files[e.configPath]);
    }
  }

  lemma OneFieldUpdates(site: Site, files: map<string, Bytes>, field: (Path, Json), fixId: string, stamp: string)
    ensures var (files', r) := UpdateField(site, files, "config.json", field.0, field.1, fixId, stamp);
      UpdateFields(site, files, [field], fixId, [stamp]) == (files', [r])
  {
    assert [field][1..] == [] && [stamp][1..] == [];
    var (files', r) := UpdateField(site, files, "config.json", field.0, field.1, fixId, stamp);
    assert UpdateFields(site, files', [field][1..], fixId, [stamp][1..]) == (files', []);
    assert [r] + [] == [r];
  }

  lemma LegacyStepPushes(site: Site, legacy: LegacyTable, disk: Disk, fixId: string, stamps: Stamps)
    requires |LegacyEdits(legacy, fixId)| <= 1
    ensures var after := AppliedLegacy(site, legacy, disk, fixId, stamps).0;
      if Grows(disk, after) then exists f, e, text :: IsPush(site, disk, after, f, e, text) else after == disk
  {
    var fields := LegacyEdits(legacy, fixId);
    if |fields| == 1 {
      assert fields == [fields[0]];
      assert seq(|fields|, i requires 0 <= i => stamps(i)) == [stamps(0)];
      OneFieldUpdates(site, disk.files, fields[0], fixId, stamps(0));
      var (files, r) := UpdateField(site, disk.files, "config.json", fields[0].0, fields[0].1, fixId, stamps(0));
      SingleResult(r);
      BackupIsNotConfig(site.backupDir, fixId, ConfigPath(site, "config.json"), stamps(0));
      var after := AppliedLegacy(site, legacy, disk, fixId, stamps).0;
      if r.edit.Some? {
        assert IsPush(site, disk, after, fixId, r.edit.value, files[r.edit.value.configPath]);
      }
    }
  }

  /** A change that is no rollback either pushes one record of one edit or leaves everything alone. */
  lemma ForwardStepPushes(site: Site, legacy: LegacyTable, disk: Disk, c: Change)
    requires OneField(legacy, c) && !c.RollsBackLatest?
    ensures var after := ChangeStep(site, legacy, disk, c);
      if Grows(disk, after) then exists fixId, e, text :: IsPush(site, disk, after, fixId, e, text) else after == disk
  {
    match c
    case AppliesSafe(op) => SafeStepPushes(site, disk, op);
    case AppliesLegacy(fixId, stamps) => LegacyStepPushes(site, legacy, disk, fixId, stamps);
    case RollsBackLatest =>
  }

  lemma PushIsUndone(site: Site, before: Disk, after: Disk, fixId: string, e: Edit, text: Bytes)
    requires IsPush(site, before, after, fixId, e, text) && e.backupPath !in BackupsOf(before.records)
    ensures Rollback(site, after).1 && SameState(before, Rollback(site, after).0)
  {
    SingleEditRollback(site, after.files, before.records, fixId, e);
    assert after.files[e.configPath := after.files[e.backupPath]] ==
        before.files[e.backupPath := before.files[e.configPath]];
  }

  /** One step of a run. A write saves the file under a name that no record on the stack relies on. */
  ghost predicate Changes(site: Site, legacy: LegacyTable, d: Disk, c: Change, d': Disk) {
    && OneField(legacy, c) && d' == ChangeStep(site, legacy, d, c)
    && (!c.RollsBackLatest? && Grows(d, d') ==> NewestBackup(d') !in BackupsOf(d.records))
  }

  ghost predicate ChangeRun(site: Site, legacy: LegacyTable, ds: seq<Disk>, cs: seq<Change>) {
    |ds| == |cs| + 1 && forall i | 0 <= i < |cs| :: Changes(site, legacy, ds[i], cs[i], ds[i + 1])
  }

  /** Pushes less rollbacks, from `lo` up to `hi`. */
  function Depth(ds: seq<Disk>, cs: seq<Change>, lo: nat, hi: nat): int
    requires lo <= hi <= |cs| < |ds|
    decreases hi - lo
  {
    if lo == hi then 0
    else DepthAfter(Depth(ds, cs, lo, hi - 1), ds[hi - 1], cs[hi - 1], ds[hi])
  }

  function DepthAfter(n: int, d: Disk, c: Change, d': Disk): int {
    if c.RollsBackLatest? then n - 1 else if Grows(d, d') then n + 1 else n
  }

  lemma ChangeKeepsUndone(site: Site, legacy: LegacyTable, base: Disk, d: Disk, c: Change, d': Disk, n: nat)
    requires UndoneBy(site, base, d, n) && Changes(site, legacy, d, c, d') && DepthAfter(n, d, c, d') >= 0
    ensures UndoneBy(site, base, d', DepthAfter(n, d, c, d'))
  {
    if !c.RollsBackLatest? {
      ForwardStepPushes(site, legacy, d, c);
      if Grows(d, d') {
        var fixId, e, text :| IsPush(site, d, d', fixId, e, text);
        PushIsUndone(site, d, d', fixId, e, text);
        OneMoreRollback(site, base, d, d', n);
      }
    }
  }

  /**
   In any run of registry fixes, one-field fixes and rollbacks, in any order, that never rolls back further than to
   its start: as many rollbacks as the run is deep succeed and bring back the state of the start.
   */
  lemma {:induction false} RollbacksUndoChanges(site: Site, legacy: LegacyTable, ds: seq<Disk>, cs: seq<Change>,
                                                lo: nat, hi: nat)
    requires ChangeRun(site, legacy, ds, cs) && lo <= hi <= |cs|
    requires forall k | lo <= k <= hi :: Depth(ds, cs, lo, k) >= 0
    ensures UndoneBy(site, ds[lo], ds[hi], Depth(ds, cs, lo, hi))
    decreases hi - lo
  {
    if lo < hi {
      var i := hi - 1;
      RollbacksUndoChanges(site, legacy, ds, cs, lo, i);
      var n := Depth(ds, cs, lo, i);
      assert Changes(site, legacy, ds[i], cs[i], ds[i + 1]);
      assert n >= 0 && Depth(ds, cs, lo, hi) >= 0;
      ChangeKeepsUndone(site, legacy, ds[lo], ds[i], cs[i], ds[hi], n);
    }
  }

  /** So a run that rolls back as often as it writes ends where it started, but for backups nobody relies on. */
  lemma BalancedRunRestores(site: Site, legacy: LegacyTable, ds: seq<Disk>, cs: seq<Change>, lo: nat, hi: nat)
    requires ChangeRun(site, legacy, ds, cs) && lo <= hi <= |cs|
    requires (forall k | lo <= k <= hi :: Depth(ds, cs, lo, k) >= 0) && Depth(ds, cs, lo, hi) == 0
    ensures SameState(ds[lo], ds[hi])
  {
    RollbacksUndoChanges(site, legacy, ds, cs, lo, hi);
  }
}
