/** The machine a project lives on: parsing and writing configuration files, paths, evidence tables, ports. */
module Hosts {
  import opened Wrappers
  import opened ConfigTree
  import opened Semantics
  import opened Registry
  import opened Projects

  /**
   What the model leaves to the machine: how a configuration file is parsed and written back, how paths
   resolve, and which evidence tables match an event. `render` also takes the text it replaces, because the
   order of the keys is carried over from it.
   */
  datatype Host = Host(
    parse: Bytes -> Option<Json>,
    render: (Bytes, Json) -> Bytes,
    resolve: (string, string) -> string,
    inside: (string, string) -> bool,
    matches: (Event, Marker) -> bool)

  /** A file that was written back parses to the tree that was written. */
  ghost predicate Faithful(host: Host) {
    forall text, data :: host.parse(host.render(text, data)) == Some(data)
  }

  /** What a precheck can see: the files, and which ports can be bound. */
  datatype View = View(files: map<string, Bytes>, probe: Probe)

  /** The suffix of the path is `.json` in any case, and the name is more than the suffix. */
  predicate IsJsonPath(path: string) {
    |path| >= 6 && path[|path| - 6] != '/' && Lower(path[|path| - 5..]) == ".json"
  }

  /** The last component of a path. */
  function BaseName(path: string): string {
    if path == [] || path[|path| - 1] == '/' then [] else BaseName(path[..|path| - 1]) + [path[|path| - 1]]
  }

  /** It is what follows the last slash, or all of the path if there is none. */
  lemma {:induction false} BaseNameIs(path: string)
    ensures var n := |BaseName(path)|;
      && n <= |path| && BaseName(path) == path[|path| - n..] && '/' !in BaseName(path)
      && (n < |path| ==> path[|path| - n - 1] == '/')
  {
    if path != [] && path[|path| - 1] != '/' {
      BaseNameIs(path[..|path| - 1]);
    }
  }

  predicate IsBackupPath(path: string) {
    |path| >= 4 && path[|path| - 4..] == ".bak"
  }

  /** The file that keeps the previous contents of `config`; `stamp` is the time to the second. */
  function BackupPath(dir: string, fixId: string, config: string, stamp: string): string {
    dir + "/" + fixId + "_" + BaseName(config) + "_" + stamp + ".bak"
  }

  /** A backup never lands on a configuration file. */
  lemma BackupIsNotConfig(dir: string, fixId: string, config: string, stamp: string)
    ensures IsBackupPath(BackupPath(dir, fixId, config, stamp))
    ensures !IsJsonPath(BackupPath(dir, fixId, config, stamp))
  {
    var prefix := dir + "/" + fixId + "_" + BaseName(config) + "_" + stamp;
    var p := prefix + ".bak";
    assert p[|p| - 4..] == ".bak";
    if |p| >= 5 {
      assert Lower(p[|p| - 5..])[4] == 'k';
    }
  }

  lemma NoBackupIsJson(path: string)
    requires IsBackupPath(path)
    ensures !IsJsonPath(path)
  {
    if |path| >= 5 {
      assert path[|path| - 4..][3] == 'k';
      assert Lower(path[|path| - 5..])[4] == 'k';
    }
  }

  /** Two backups of one fix and one file collide exactly when they were made in the same second. */
  lemma BackupsCollideIff(dir: string, fixId: string, config: string, s: string, t: string)
    ensures BackupPath(dir, fixId, config, s) == BackupPath(dir, fixId, config, t) <==> s == t
  {
    var prefix := dir + "/" + fixId + "_" + BaseName(config) + "_";
    var p, q := BackupPath(dir, fixId, config, s), BackupPath(dir, fixId, config, t);
    assert p == prefix + s + ".bak" && q == prefix + t + ".bak";
    if p == q {
      assert s == p[|prefix|..|p| - 4] == q[|prefix|..|q| - 4] == t;
    }
  }
}
