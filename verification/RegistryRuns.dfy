/** Runs of registry fixes without rollback: every field is written at most once, and only downwards. */
module RegistryRuns {
  import opened Wrappers
  import opened ConfigTree
  import opened Semantics
  import opened Registry
  import opened Hosts
  import opened Executor
  import opened ExecutorTheorems

  /** Different configuration names are different files. */
  predicate DistinctConfigs(site: Site, specs: seq<SafeSpec>) {
    forall s, t | s in specs && t in specs && ConfigPath(site, s.configPath) == ConfigPath(site, t.configPath) ::
      s.configPath == t.configPath
  }

  /** The field holds its registered target. */
  predicate Settled(site: Site, files: map<string, Bytes>, relative: string, c: FieldCandidate) {
    ReadTree(site, files, relative).Some? && Lookup(ReadTree(site, files, relative).value, c.path) == Some(c.target)
  }

  /** The candidate an application writes. */
  function WrittenCandidate(site: Site, disk: Disk, op: Op): (c: FieldCandidate)
    requires Pushes(site, disk, op)
    ensures c in op.spec.candidates
  {
    WriteFacts(site, disk, op);
    var data := ReadTree(site, disk.files, op.spec.configPath).value;
    op.spec.candidates[FirstWritable(Verdicts(data, op.spec.candidates, op.probe))]
  }

  /**
   A write only lowers: it is never one that the rules refuse, and nothing else in the tree or on the disk changes.
   */
  lemma WriteOnlyLowers(site: Site, disk: Disk, op: Op)
    requires Pushes(site, disk, op)
    ensures var c := WrittenCandidate(site, disk, op);
      var data := ReadTree(site, disk.files, op.spec.configPath);
      data.Some? && Lookup(data.value, c.path).Some? &&
      var old_ := Lookup(data.value, c.path).value;
      && !PyEq(old_, c.target)
      && LocalTransition(c.rule, data.value, old_, c.target, op.probe).status != Unsafe
      && (c.rule == DisableBool ==> old_ == Bool(true) && c.target == Bool(false))
      && (c.rule == LowerInt ==> old_.Int? && c.target.Int? && c.target.num < old_.num)
      && (c.rule == PortAvailable ==> c.target.Int? && op.probe(TargetPortHost(data.value), c.target.num))
    ensures forall p | p != ConfigPath(site, op.spec.configPath) && p != Backup(site, op) ::
      (p in Step(site, disk, op).files <==> p in disk.files) &&
      (p in disk.files ==> Step(site, disk, op).files[p] == disk.files[p])
  {
    WriteFacts(site, disk, op);
    var c := WrittenCandidate(site, disk, op);
    var data := ReadTree(site, disk.files, op.spec.configPath).value;
    ActionableOnlyLowers(c.rule, data, Lookup(data, c.path).value, c.target, op.probe);
  }

  lemma WriteChangesOneField(site: Site, disk: Disk, op: Op, other: Path)
    requires Faithful(site.host) && Pushes(site, disk, op)
    ensures var after := ReadTree(site, Step(site, disk, op).files, op.spec.configPath);
      var before := ReadTree(site, disk.files, op.spec.configPath);
      var c := WrittenCandidate(site, disk, op);
      && before.Some? && after.Some?
      && Lookup(after.value, c.path) == Some(c.target)
      && (Diverge(c.path, other) ==> Lookup(after.value, other) == Lookup(before.value, other))
  {
    WriteFacts(site, disk, op);
    var c := WrittenCandidate(site, disk, op);
    var data := ReadTree(site, disk.files, op.spec.configPath).value;
    LookupAfterUpdate(data, c.path, c.target);
    if Diverge(c.path, other) {
      UpdateFrame(data, c.path, c.target, other);
    }
    var config := ConfigPath(site, op.spec.configPath);
    assert site.host.parse(Step(site, disk, op).files[config]) == Some(Update(data, c.path, c.target));
  }

  /** A write to one file does not touch the tree of another. */
  lemma OtherFileKept(site: Site, disk: Disk, op: Op, relative: string)
    requires Pushes(site, disk, op) && ConfigPath(site, relative) != ConfigPath(site, op.spec.configPath)
    ensures ReadTree(site, Step(site, disk, op).files, relative) == ReadTree(site, disk.files, relative)
  {
    WriteFacts(site, disk, op);
    BackupIsNotConfig(site.backupDir, op.spec.fixId, ConfigPath(site, op.spec.configPath), op.stamp);
  }

  lemma SettledKept(site: Site, specs: seq<SafeSpec>, disk: Disk, op: Op, s: SafeSpec, c: FieldCandidate)
    requires Faithful(site.host) && Consistent(specs) && DistinctConfigs(site, specs)
    requires s in specs && c in s.candidates && op.spec in specs
    requires Settled(site, disk.files, s.configPath, c)
    ensures Settled(site, Step(site, disk, op).files, s.configPath, c)
  {
    NoWriteNoChange(site, disk, op);
    if Pushes(site, disk, op) {
      if ConfigPath(site, s.configPath) == ConfigPath(site, op.spec.configPath) {
        var b := WrittenCandidate(site, disk, op);
        assert Compatible(b, c);
        WriteChangesOneField(site, disk, op, c.path);
      } else {
        OtherFileKept(site, disk, op, s.configPath);
      }
    }
  }

  lemma SettledNotWritten(site: Site, specs: seq<SafeSpec>, disk: Disk, op: Op, s: SafeSpec, c: FieldCandidate)
    requires Consistent(specs) && s in specs && c in s.candidates && op.spec in specs
    requires s.configPath == op.spec.configPath && Settled(site, disk.files, s.configPath, c) && Pushes(site, disk, op)
    ensures WrittenCandidate(site, disk, op).path != c.path
  {
    var b := WrittenCandidate(site, disk, op);
    if b.path == c.path {
      assert Compatible(b, c);
      NotDivergeSelf(c.path);
      WriteFacts(site, disk, op);
      PyEqReflexive(c.target);
    }
  }

  lemma {:induction false} NotDivergeSelf(p: Path)
    ensures !Diverge(p, p)
  {
    if p != [] {
      NotDivergeSelf(p[1..]);
    }
  }

  ghost predicate RegistryRun(site: Site, specs: seq<SafeSpec>, ds: seq<Disk>, ops: seq<Op>) {
    && Faithful(site.host) && Consistent(specs) && DistinctConfigs(site, specs)
    && IsRun(site, ds, ops)
    && forall op | op in ops :: op.spec in specs
  }

  lemma {:induction false} SettledFrom(site: Site, specs: seq<SafeSpec>, ds: seq<Disk>, ops: seq<Op>, i: nat, j: nat)
    requires RegistryRun(site, specs, ds, ops) && i < j <= |ops| && Pushes(site, ds[i], ops[i])
    ensures Settled(site, ds[j].files, ops[i].spec.configPath, WrittenCandidate(site, ds[i], ops[i]))
    decreases j
  {
    var c := WrittenCandidate(site, ds[i], ops[i]);
    if j == i + 1 {
      WriteChangesOneField(site, ds[i], ops[i], c.path);
    } else {
      SettledFrom(site, specs, ds, ops, i, j - 1);
      var k := j - 1;
      assert ds[k + 1] == Step(site, ds[k], ops[k]);
      SettledKept(site, specs, ds[k], ops[k], ops[i].spec, c);
    }
  }

  /** Along any run of registry fixes, no field of a file is written twice. */
  lemma NoFieldWrittenTwice(site: Site, specs: seq<SafeSpec>, ds: seq<Disk>, ops: seq<Op>, i: nat, j: nat)
    requires RegistryRun(site, specs, ds, ops) && i < j < |ops|
    requires Pushes(site, ds[i], ops[i]) && Pushes(site, ds[j], ops[j])
    requires ops[i].spec.configPath == ops[j].spec.configPath
    ensures WrittenCandidate(site, ds[i], ops[i]).path != WrittenCandidate(site, ds[j], ops[j]).path
  {
    SettledFrom(site, specs, ds, ops, i, j);
    SettledNotWritten(site, specs, ds[j], ops[j], ops[i].spec, WrittenCandidate(site, ds[i], ops[i]));
  }

  /** The registered fields: file and path. */
  function FieldsOf(specs: seq<SafeSpec>): (r: set<(string, Path)>)
    ensures forall s, c | s in specs && c in s.candidates :: (s.configPath, c.path) in r
  {
    set s, c | s in specs && c in s.candidates :: (s.configPath, c.path)
  }

  function FieldAt(site: Site, ds: seq<Disk>, ops: seq<Op>, i: nat): (string, Path)
    requires i < |ops| <= |ds| && Pushes(site, ds[i], ops[i])
  {
    (ops[i].spec.configPath, WrittenCandidate(site, ds[i], ops[i]).path)
  }

  function WrittenFields(site: Site, ds: seq<Disk>, ops: seq<Op>, hi: nat): set<(string, Path)>
    requires hi <= |ops| <= |ds|
  {
    set i | 0 <= i < hi && Pushes(site, ds[i], ops[i]) :: FieldAt(site, ds, ops, i)
  }

  lemma WrittenFieldsGrow(site: Site, ds: seq<Disk>, ops: seq<Op>, j: nat)
    requires j < |ops| <= |ds|
    ensures WrittenFields(site, ds, ops, j + 1) ==
      WrittenFields(site, ds, ops, j) + if Pushes(site, ds[j], ops[j]) then {FieldAt(site, ds, ops, j)} else {}
  {
  }

  lemma NewFieldIsNew(site: Site, specs: seq<SafeSpec>, ds: seq<Disk>, ops: seq<Op>, j: nat)
    requires RegistryRun(site, specs, ds, ops) && j < |ops| && Pushes(site, ds[j], ops[j])
    ensures FieldAt(site, ds, ops, j) !in WrittenFields(site, ds, ops, j)
    ensures FieldAt(site, ds, ops, j) in FieldsOf(specs)
  {
    assert ops[j] in ops;
    forall i | 0 <= i < j && Pushes(site, ds[i], ops[i])
      ensures FieldAt(site, ds, ops, i) != FieldAt(site, ds, ops, j)
    {
      if ops[i].spec.configPath == ops[j].spec.configPath {
        NoFieldWrittenTwice(site, specs, ds, ops, i, j);
      }
    }
  }

  ghost predicate Counted(fields: set<(string, Path)>, registered: set<(string, Path)>, n: nat) {
    fields <= registered && |fields| == n
  }

  lemma CountOneMore(fields: set<(string, Path)>, registered: set<(string, Path)>, n: nat, f: (string, Path))
    requires Counted(fields, registered, n) && f !in fields && f in registered
    ensures Counted(fields + {f}, registered, n + 1)
  {
  }

  lemma {:induction false} WritesAreDistinctFields(site: Site, specs: seq<SafeSpec>, ds: seq<Disk>, ops: seq<Op>,
                                                   hi: nat)
    requires RegistryRun(site, specs, ds, ops) && hi <= |ops|
    ensures Counted(WrittenFields(site, ds, ops, hi), FieldsOf(specs), PushCount(site, ds, ops, 0, hi))
    decreases hi
  {
    if hi > 0 {
      var j := hi - 1;
      WritesAreDistinctFields(site, specs, ds, ops, j);
      WrittenFieldsGrow(site, ds, ops, j);
      if Pushes(site, ds[j], ops[j]) {
        NewFieldIsNew(site, specs, ds, ops, j);
        CountOneMore(WrittenFields(site, ds, ops, j), FieldsOf(specs), PushCount(site, ds, ops, 0, j),
                     FieldAt(site, ds, ops, j));
      } else {
        assert WrittenFields(site, ds, ops, hi) == WrittenFields(site, ds, ops, j);
      }
    }
  }

  /** However long the run, it writes at most once per registered field. So repeating fixes comes to rest. */
  lemma WritesBounded(site: Site, specs: seq<SafeSpec>, ds: seq<Disk>, ops: seq<Op>)
    requires RegistryRun(site, specs, ds, ops)
    ensures PushCount(site, ds, ops, 0, |ops|) <= |FieldsOf(specs)|
  {
    WritesAreDistinctFields(site, specs, ds, ops, |ops|);
    SubsetCardinality(WrittenFields(site, ds, ops, |ops|), FieldsOf(specs));
  }
}
