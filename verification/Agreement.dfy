/** The precheck and the executors agree on what will be written. */
module Agreement {
  import opened Wrappers
  import opened ConfigTree
  import opened Semantics
  import opened Registry
  import opened Projects
  import opened Hosts
  import opened Gate
  import opened Executor

  /** The first planned edit that is actionable. */
  function FirstActionablePlanned(planned: seq<PlannedEdit>): Option<PlannedEdit> {
    if planned == [] then None
    else if planned[0].transition.actionable then Some(planned[0])
    else FirstActionablePlanned(planned[1..])
  }

  lemma {:induction false} CountedIffFound(planned: seq<PlannedEdit>)
    ensures CountActionable(planned) > 0 <==> FirstActionablePlanned(planned).Some?
  {
    if planned != [] && !planned[0].transition.actionable {
      CountedIffFound(planned[1..]);
    }
  }

  lemma VerdictMatchesPlan(data: Json, c: FieldCandidate, probe: Probe)
    ensures Lookup(data, c.path).None? <==> VerdictOf(data, c, probe) == Missing
    ensures Lookup(data, c.path).Some? ==>
      (VerdictOf(data, c, probe) == Writable <==>
       LocalTransition(c.rule, data, Lookup(data, c.path).value, c.target, probe).actionable)
  {
  }

  /** The plan's first actionable edit is the executor's first writable candidate, with the same old and new value. */
  lemma {:induction false} PlanFindsFirstWritable(data: Json, candidates: seq<FieldCandidate>, probe: Probe)
    ensures var i := FirstWritable(Verdicts(data, candidates, probe));
      var found := FirstActionablePlanned(Plan(data, candidates, probe));
      && (found.Some? <==> i < |candidates|)
      && (found.Some? ==>
          && found.value.path == candidates[i].path
          && found.value.oldValue == Lookup(data, candidates[i].path)
          && found.value.target == candidates[i].target)
    decreases candidates
  {
    if candidates != [] {
      VerdictMatchesPlan(data, candidates[0], probe);
      assert Verdicts(data, candidates, probe)[1..] == Verdicts(data, candidates[1..], probe);
      PlanFindsFirstWritable(data, candidates[1..], probe);
      var vs := Verdicts(data, candidates, probe);
      assert vs[0] == VerdictOf(data, candidates[0], probe);
    }
  }

  /** The executor works on the project the gate judged. */
  ghost predicate SiteOf(site: Site, host: Host, project: Project) {
    site.host == host && site.projectDir == project.EffectiveDir()
  }

  /**
   On one and the same set of files and ports, an application writes exactly when the precheck read the file
   and counted an actionable edit, and then it writes the first such edit. The one thing the precheck does
   not look at is the `.json` suffix.
   */
  lemma PrecheckPredictsWrite(site: Site, host: Host, project: Project, spec: SafeSpec, view: View, stamp: string)
    requires SiteOf(site, host, project)
    ensures var read := ReadConfig(host, project, spec, view);
      var config := ConfigPathFor(host, project, spec);
      var edit := ApplySpec(site, view.files, spec, view.probe, stamp).2;
      var found := FirstActionablePlanned(read.planned);
      && (edit.Some? <==> read.status == ReadOk && IsJsonPath(config) && CountActionable(read.planned) > 0)
      && (edit.Some? ==>
          && found.Some?
          && edit.value.path == found.value.path
          && found.value.oldValue == Some(edit.value.oldValue)
          && found.value.target == edit.value.newValue)
  {
    var read := ReadConfig(host, project, spec, view);
    CountedIffFound(read.planned);
    var config := ConfigPathFor(host, project, spec);
    if config in view.files && host.inside(config, project.EffectiveDir()) && host.parse(view.files[config]).Some? {
      PlanFindsFirstWritable(host.parse(view.files[config]).value, spec.candidates, view.probe);
    }
  }
}
