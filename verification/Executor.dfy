/** The local editor and executor: one JSON field at a time, a backup before every write, a stack of apply records. */
module Executor {
  import opened Wrappers
  import opened ConfigTree
  import opened Semantics
  import opened Registry
  import opened Hosts

  /** Where an executor works: the machine, the project's directory and the directory of its backups. */
  datatype Site = Site(host: Host, projectDir: string, backupDir: string)

  /** One written field, as an apply record keeps it. */
  datatype Edit = Edit(configPath: string, backupPath: string, path: Path, oldValue: Json, newValue: Json)

  datatype ApplyRecord = ApplyRecord(fixId: string, edits: seq<Edit>)

  /** The files of the machine, backups included, and the executor's record stack, newest last. */
  datatype Disk = Disk(files: map<string, Bytes>, records: seq<ApplyRecord>)

  /** `edit` is present when the field was written: then a backup and a diff exist as well. */
  datatype EditResult = EditResult(success: bool, noOp: bool, edit: Option<Edit>)

  const FAILED_EDIT := EditResult(false, false, None)
  const NO_OP_EDIT := EditResult(true, true, None)

  datatype ApplyResult = ApplyResult(success: bool, results: seq<EditResult>)

  function ConfigPath(site: Site, relative: string): string {
    site.host.resolve(site.projectDir, relative)
  }

  /** The tree in a configuration file, or None for each of the ways the editor refuses the file. */
  function ReadTree(site: Site, files: map<string, Bytes>, relative: string): Option<Json> {
    var config := ConfigPath(site, relative);
    if !site.host.inside(config, site.projectDir) || config !in files || !IsJsonPath(config) then None
    else site.host.parse(files[config])
  }

  /** The files after one field was written. */
  function WriteField(site: Site, files: map<string, Bytes>, relative: string, path: Path, v: Json,
                      backup: string): map<string, Bytes>
    requires ReadTree(site, files, relative).Some? && Lookup(ReadTree(site, files, relative).value, path).Some?
  {
    var config := ConfigPath(site, relative);
    files[backup := files[config]]
         [config := site.host.render(files[config], Update(ReadTree(site, files, relative).value, path, v))]
  }

  function UpdateField(site: Site, files: map<string, Bytes>, relative: string, path: Path, v: Json, fixId: string,
                       stamp: string): (map<string, Bytes>, EditResult) {
    match ReadTree(site, files, relative)
    case None => (files, FAILED_EDIT)
    case Some(data) =>
      match Lookup(data, path)
      case None => (files, FAILED_EDIT)
      case Some(old_) =>
        if PyEq(old_, v) then (files, NO_OP_EDIT)
        else
          var config := ConfigPath(site, relative);
          var backup := BackupPath(site.backupDir, fixId, config, stamp);
          (WriteField(site, files, relative, path, v, backup),
           EditResult(true, false, Some(Edit(config, backup, path, old_, v))))
  }

  /** Copy one backup over its configuration file; a failure changes nothing. */
  function RestoreOne(site: Site, files: map<string, Bytes>, edit: Edit): (map<string, Bytes>, bool) {
    if edit.backupPath !in files || !site.host.inside(edit.configPath, site.projectDir) then (files, false)
    else (files[edit.configPath := files[edit.backupPath]], true)
  }

  /** Restore the edits of one record, first edit first. True when every one of them succeeded. */
  function RestoreAll(site: Site, files: map<string, Bytes>, edits: seq<Edit>): (map<string, Bytes>, bool)
    decreases edits
  {
    if edits == [] then (files, true)
    else
      var (files1, ok1) := RestoreOne(site, files, edits[0]);
      var (files2, ok2) := RestoreAll(site, files1, edits[1..]);
      (files2, ok1 && ok2)
  }

  /** Roll the newest record back. The record goes only when all of its edits came back. */
  function Rollback(site: Site, disk: Disk): (Disk, bool) {
    if disk.records == [] then (disk, false)
    else
      var latest := disk.records[|disk.records| - 1];
      var (files, ok) := RestoreAll(site, disk.files, latest.edits);
      var success := latest.edits != [] && ok;
      (Disk(files, if success then disk.records[..|disk.records| - 1] else disk.records), success)
  }

  /** What becomes of one candidate: its field is missing, already safe, to be written, or refused. */
  datatype Verdict = Missing | AlreadySafe | Writable | Refused

  function VerdictOf(data: Json, c: FieldCandidate, probe: Probe): Verdict {
    match Lookup(data, c.path)
    case None => Missing
    case Some(old_) =>
      var t := LocalTransition(c.rule, data, old_, c.target, probe);
      if t.noOp then AlreadySafe else if t.actionable then Writable else Refused
  }

  function Verdicts(data: Json, candidates: seq<FieldCandidate>, probe: Probe): (vs: seq<Verdict>)
    ensures |vs| == |candidates|
    ensures forall i | 0 <= i < |vs| :: vs[i] == VerdictOf(data, candidates[i], probe)
  {
    seq(|candidates|, i requires 0 <= i < |candidates| => VerdictOf(data, candidates[i], probe))
  }

  /** The position of the first field to write, or the number of candidates. */
  function FirstWritable(vs: seq<Verdict>): (r: nat)
    ensures r <= |vs|
    ensures r < |vs| ==> vs[r] == Writable
    ensures forall i | 0 <= i < r :: vs[i] != Writable
  {
    if vs == [] || vs[0] == Writable then 0 else 1 + FirstWritable(vs[1..])
  }

  /** What one application of a safe fix does to the files, whether it succeeds, and the edit it made. */
  function ApplySpec(site: Site, files: map<string, Bytes>, spec: SafeSpec, probe: Probe, stamp: string):
    (r: (map<string, Bytes>, bool, Option<Edit>))
  {
    match ReadTree(site, files, spec.configPath)
    case None => (files, false, None)
    case Some(data) =>
      var vs := Verdicts(data, spec.candidates, probe);
      var i := FirstWritable(vs);
      if i < |spec.candidates| then
        var c := spec.candidates[i];
        var (files', result) := UpdateField(site, files, spec.configPath, c.path, c.target, spec.fixId, stamp);
        (files', result.success, result.edit)
      else (files, AlreadySafe in vs, None)
  }

  /** The edits that results report. */
  function Edits(results: seq<EditResult>): seq<Edit> {
    if results == [] then []
    else (if results[0].success && results[0].edit.Some? then [results[0].edit.value] else []) + Edits(results[1..])
  }

  predicate AllSucceed(results: seq<EditResult>) {
    results != [] && forall r | r in results :: r.success
  }

  function Recorded(records: seq<ApplyRecord>, fixId: string, results: seq<EditResult>): seq<ApplyRecord> {
    if AllSucceed(results) && Edits(results) != [] then records + [ApplyRecord(fixId, Edits(results))] else records
  }

  /** Applying a safe fix, on the whole disk. */
  function Applied(site: Site, disk: Disk, spec: SafeSpec, probe: Probe, stamp: string): (Disk, bool) {
    var (files, success, edit) := ApplySpec(site, disk.files, spec, probe, stamp);
    match edit
    case Some(e) => (Disk(files, disk.records + [ApplyRecord(spec.fixId, [e])]), success)
    case None => (Disk(files, disk.records), success)
  }

  /** The fixes outside the registry: for each name the fields it writes, one after the other. */
  type LegacyTable = map<string, seq<(Path, Json)>>

  /** The executors know all their fixes from two tables. */
  datatype Catalog = Catalog(safe: seq<SafeSpec>, legacy: LegacyTable)

  function LegacyEdits(legacy: LegacyTable, fixId: string): seq<(Path, Json)> {
    if fixId in legacy then legacy[fixId] else []
  }

  function UpdateFields(site: Site, files: map<string, Bytes>, fields: seq<(Path, Json)>, fixId: string,
                        stamps: seq<string>):
    (map<string, Bytes>, seq<EditResult>)
    requires |stamps| == |fields|
    decreases fields
  {
    if fields == [] then (files, [])
    else
      var (files1, first) := UpdateField(site, files, "config.json", fields[0].0, fields[0].1, fixId, stamps[0]);
      var (files2, rest) := UpdateFields(site, files1, fields[1..], fixId, stamps[1..]);
      (files2, [first] + rest)
  }

  /** The time stamps of the writes of one call, first write first. */
  type Stamps = nat -> string

  function AppliedLegacy(site: Site, legacy: LegacyTable, disk: Disk, fixId: string, stamps: Stamps): (Disk, bool) {
    var fields := LegacyEdits(legacy, fixId);
    var (files, results) := UpdateFields(site, disk.files, fields, fixId,
        seq(|fields|, i requires 0 <= i => stamps(i)));
    (Disk(files, Recorded(disk.records, fixId, results)), AllSucceed(results))
  }

  /** Applying any fix by its name. An unknown or empty name fails and changes nothing. */
  function AppliedFix(site: Site, catalog: Catalog, disk: Disk, name: string, probe: Probe, stamps: Stamps):
    (Disk, bool)
  {
    var fixId := Strip(name);
    if fixId == "" then (disk, false)
    else match SpecByFix(catalog.safe, fixId)
      case Some(spec) => Applied(site, disk, spec, probe, stamps(0))
      case None => AppliedLegacy(site, catalog.legacy, disk, fixId, stamps)
  }

  class SafeApplyExecutor {
    const site: Site
    const catalog: Catalog
    var files: map<string, Bytes>
    var records: seq<ApplyRecord>

    constructor (site: Site, catalog: Catalog, disk: Disk)
      ensures this.site == site && this.catalog == catalog && State() == disk
    {
      this.site, this.catalog, files, records := site, catalog, disk.files, disk.records;
    }

    function State(): Disk
      reads this
    {
      Disk(files, records)
    }

    method UpdateJsonField(relative: string, path: Path, v: Json, fixId: string,
                           stamp: string) returns (result: EditResult)
      modifies this`files
      ensures (files, result) == UpdateField(site, old(files), relative, path, v, fixId, stamp)
    {
      var config := ConfigPath(site, relative);
      if !site.host.inside(config, site.projectDir) {
        return FAILED_EDIT;
      }
      if config !in files {
        return FAILED_EDIT;
      }
      if !IsJsonPath(config) {
        return FAILED_EDIT;
      }
      var parsed := site.host.parse(files[config]);
      if parsed.None? {
        return FAILED_EDIT;
      }
      var oldValue := GetNestedValue(parsed.value, path);
      if oldValue.None? {
        return FAILED_EDIT;
      }
      if PyEq(oldValue.value, v) {
        return NO_OP_EDIT;
      }
      var backup := BackupPath(site.backupDir, fixId, config, stamp);
      var original := files[config];
      files := files[backup := original];
      files := files[config := site.host.render(original, Update(parsed.value, path, v))];
      return EditResult(true, false, Some(Edit(config, backup, path, oldValue.value, v)));
    }

    method RollbackEdit(edit: Edit) returns (success: bool)
      modifies this`files
      ensures (files, success) == RestoreOne(site, old(files), edit)
    {
      if edit.backupPath !in files {
        return false;
      }
      if !site.host.inside(edit.configPath, site.projectDir) {
        return false;
      }
      files := files[edit.configPath := files[edit.backupPath]];
      return true;
    }

    /** Try the candidates in order: write the first actionable one, otherwise report the first no-op. */
    method UpdateFirstSafeRegistryField(spec: SafeSpec, probe: Probe, stamp: string) returns (results: seq<EditResult>)
      modifies this`files
      ensures var (files', success, edit) := ApplySpec(site, old(files), spec, probe, stamp);
        files == files' && AllSucceed(results) == success && Edits(results) == if edit.Some? then [edit.value] else []
    {
      SingleResult(FAILED_EDIT);
      SingleResult(NO_OP_EDIT);
      var config := ConfigPath(site, spec.configPath);
      if !site.host.inside(config, site.projectDir) || config !in files || !IsJsonPath(config) {
        return [FAILED_EDIT];
      }
      var parsed := site.host.parse(files[config]);
      if parsed.None? {
        return [FAILED_EDIT];
      }
      results := WriteFirst(parsed.value, spec, probe, stamp);
    }

    method WriteFirst(data: Json, spec: SafeSpec, probe: Probe, stamp: string) returns (results: seq<EditResult>)
      requires ReadTree(site, files, spec.configPath) == Some(data)
      modifies this`files
      ensures var (files', success, edit) := ApplySpec(site, old(files), spec, probe, stamp);
        files == files' && AllSucceed(results) == success && Edits(results) == if edit.Some? then [edit.value] else []
    {
      results := [];
      var noOps := [];
      ghost var vs := Verdicts(data, spec.candidates, probe);
      for i := 0 to |spec.candidates|
        invariant files == old(files)
        invariant Writable !in vs[..i]
        invariant noOps != [] <==> AlreadySafe in vs[..i]
        invariant forall j | 0 <= j < |noOps| :: noOps[j] == NO_OP_EDIT
        invariant forall j | 0 <= j < |results| :: results[j] == FAILED_EDIT
      {
        assert vs[..i + 1] == vs[..i] + [vs[i]];
        var c := spec.candidates[i];
        var verdict := VerdictOf(data, c, probe);
        if verdict == Missing {
          results := results + [FAILED_EDIT];
          continue;
        }
        if verdict == AlreadySafe {
          noOps := noOps + [NO_OP_EDIT];
          continue;
        }
        if verdict == Refused {
          results := results + [FAILED_EDIT];
          continue;
        }
        FirstWritableAt(vs, i);
        var result := UpdateJsonField(spec.configPath, c.path, c.target, spec.fixId, stamp);
        SingleResult(result);
        return [result];
      }
      assert vs[..|vs|] == vs;
      FirstWritableAt(vs, |vs|);
      if noOps != [] {
        SingleResult(NO_OP_EDIT);
        return [noOps[0]];
      }
      NoEdits(results);
    }

    /** Push a record when all results succeeded and some field was written. */
    method Finalize(fixId: string, results: seq<EditResult>) returns (r: ApplyResult)
      modifies this`records
      ensures r == ApplyResult(AllSucceed(results), results)
      ensures records == Recorded(old(records), fixId, results)
    {
      var success := results != [] && forall x | x in results :: x.success;
      var wrote := exists x | x in results :: x.edit.Some?;
      EditsWhenSuccessful(results);
      if success && wrote {
        records := records + [ApplyRecord(fixId, Edits(results))];
      }
      r := ApplyResult(success, results);
    }

    method ApplySafeFix(spec: SafeSpec, probe: Probe, stamp: string) returns (r: ApplyResult)
      modifies this
      ensures (State(), r.success) == Applied(site, old(State()), spec, probe, stamp)
    {
      var results := UpdateFirstSafeRegistryField(spec, probe, stamp);
      r := Finalize(spec.fixId, results);
      ApplySpecSucceedsWhenWritten(site, old(files), spec, probe, stamp);
    }

    /** A field that fails does not stop the next one. */
    method UpdateEach(fields: seq<(Path, Json)>, fixId: string, stamps: seq<string>) returns (results: seq<EditResult>)
      requires |stamps| == |fields|
      modifies this`files
      ensures (files, results) == UpdateFields(site, old(files), fields, fixId, stamps)
    {
      results := [];
      assert fields[0..] == fields && stamps[0..] == stamps;
      assert forall rs: seq<EditResult> :: [] + rs == rs;
      for i := 0 to |fields|
        invariant var (f, rs) := UpdateFields(site, files, fields[i..], fixId, stamps[i..]);
          (f, results + rs) == UpdateFields(site, old(files), fields, fixId, stamps)
      {
        assert fields[i..][1..] == fields[i + 1..] && stamps[i..][1..] == stamps[i + 1..];
        var result := UpdateJsonField("config.json", fields[i].0, fields[i].1, fixId, stamps[i]);
        ghost var rest := UpdateFields(site, files, fields[i + 1..], fixId, stamps[i + 1..]).1;
        assert results + ([result] + rest) == results + [result] + rest;
        results := results + [result];
      }
      assert results + [] == results;
    }

    /** The fixes that are not in the registry. */
    method ApplyLegacyFix(fixId: string, stamps: seq<string>) returns (r: ApplyResult)
      requires |stamps| == |LegacyEdits(catalog.legacy, fixId)|
      modifies this
      ensures (files, r.results) == UpdateFields(site, old(files), LegacyEdits(catalog.legacy, fixId), fixId, stamps)
      ensures r.success == AllSucceed(r.results)
      ensures records == Recorded(old(records), fixId, r.results)
    {
      var results := UpdateEach(LegacyEdits(catalog.legacy, fixId), fixId, stamps);
      r := Finalize(fixId, results);
    }

    method Apply(name: string, probe: Probe, stamps: Stamps) returns (r: ApplyResult)
      modifies this
      ensures (State(), r.success) == AppliedFix(site, catalog, old(State()), name, probe, stamps)
    {
      var fixId := Strip(name);
      if fixId == "" {
        return ApplyResult(false, []);
      }
      match SpecByFix(catalog.safe, fixId)
      case Some(spec) =>
        r := ApplySafeFix(spec, probe, stamps(0));
      case None =>
        r := ApplyLegacyFix(fixId, seq(|LegacyEdits(catalog.legacy, fixId)|, i requires 0 <= i => stamps(i)));
    }

    method RollbackLatest() returns (success: bool)
      modifies this
      ensures (State(), success) == Rollback(site, old(State()))
    {
      if records == [] {
        return false;
      }
      var latest := records[|records| - 1];
      var ok := true;
      for i := 0 to |latest.edits|
        invariant records == old(records)
        invariant var (f, rest) := RestoreAll(site, files, latest.edits[i..]);
          (f, ok && rest) == RestoreAll(site, old(files), latest.edits)
      {
        assert latest.edits[i..][1..] == latest.edits[i + 1..];
        var one := RollbackEdit(latest.edits[i]);
        ok := ok && one;
      }
      success := latest.edits != [] && ok;
      if success {
        records := records[..|records| - 1];
      }
    }
  }

  lemma {:induction false} FirstWritableAt(vs: seq<Verdict>, i: nat)
    requires i <= |vs| && Writable !in vs[..i]
    requires i < |vs| ==> vs[i] == Writable
    ensures FirstWritable(vs) == i
  {
    if i > 0 {
      assert vs[0] in vs[..i];
      assert forall v | v in vs[1..][..i - 1] :: v in vs[..i];
      FirstWritableAt(vs[1..], i - 1);
    }
  }

  lemma {:induction false} NoEdits(results: seq<EditResult>)
    requires forall i | 0 <= i < |results| :: results[i] == FAILED_EDIT
    ensures Edits(results) == [] && !AllSucceed(results)
  {
    if results != [] {
      assert results[0] in results;
      NoEdits(results[1..]);
    }
  }

  lemma SingleResult(r: EditResult)
    ensures AllSucceed([r]) == r.success
    ensures Edits([r]) == if r.success && r.edit.Some? then [r.edit.value] else []
  {
    assert r in [r];
    assert [r][1..] == [];
  }

  lemma {:induction false} EditsWhenSuccessful(results: seq<EditResult>)
    ensures (forall r | r in results :: r.success) ==>
        (Edits(results) != [] <==> exists r | r in results :: r.edit.Some?)
  {
    if results != [] {
      EditsWhenSuccessful(results[1..]);
      assert results == [results[0]] + results[1..];
    }
  }

  /** The first actionable candidate really is written: the editor finds the field and a value to change. */
  lemma ApplySpecSucceedsWhenWritten(site: Site, files: map<string, Bytes>, spec: SafeSpec, probe: Probe, stamp: string)
    ensures var (files', success, edit) := ApplySpec(site, files, spec, probe, stamp);
      (edit.Some? ==> success) && (edit.None? ==> files' == files)
  {
  }

  /** The empty name, and a name that no table knows, fail and change nothing. */
  lemma UnknownNameFails(site: Site, catalog: Catalog, disk: Disk, name: string, probe: Probe, stamps: Stamps)
    requires Strip(name) == ""
      || (SpecByFix(catalog.safe, Strip(name)).None? && LegacyEdits(catalog.legacy, Strip(name)) == [])
    ensures AppliedFix(site, catalog, disk, name, probe, stamps) == (disk, false)
  {
  }
}
