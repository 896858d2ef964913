/** Which objections the precheck records: each of them exactly under its own condition. */
module PrecheckReasons {
  import opened Wrappers
  import opened TextLaws
  import opened ConfigTree
  import opened Semantics
  import opened Registry
  import opened Projects
  import opened Hosts
  import opened Policy
  import opened Gate
  import opened GateTheorems
  import Executor

  /** What became of the configuration file of a fix: exactly one of five things. */
  lemma ReadStatusIff(host: Host, project: Project, spec: SafeSpec, view: View)
    ensures var path := host.resolve(project.EffectiveDir(), spec.configPath);
      var status := ReadConfig(host, project, spec, view).status;
      && (status == RemoteDeferred <==> project.isRemote && path !in view.files)
      && (status == ReadMissing <==>
          !project.isRemote && path !in view.files && host.inside(path, project.EffectiveDir()))
      && (status == ReadUnsafePath <==>
          (!project.isRemote || path in view.files) && !host.inside(path, project.EffectiveDir()))
      && (status == ReadInvalid <==>
          path in view.files && host.inside(path, project.EffectiveDir()) && host.parse(view.files[path]).None?)
      && (status == ReadOk <==>
          path in view.files && host.inside(path, project.EffectiveDir()) && host.parse(view.files[path]).Some?)
  {
  }

  lemma SettingReasonIff(reg: Registry, project: Project, event: Event, fixId: string, x: GateReason)
    ensures x in SettingReasons(reg, project, event, fixId) <==>
      || (x == AutoRecoverDisabled && !project.policy.autoRecover)
      || (x == EscalationRequired && event.issueType in project.policy.escalationRequired)
      || (x == TargetFixMismatch && SafeFixForEvent(reg, event.eventType) != ""
          && fixId != SafeFixForEvent(reg, event.eventType))
      || (x == NotSafeCandidate && SafeFixForEvent(reg, event.eventType) == "")
      || (x == NotInProjectAllowlist && fixId != "" && fixId !in project.policy.allowAutoApply)
  {
  }

  lemma EvidenceReasonIff(reg: Registry, project: Project, event: Event, fixId: string, x: GateReason)
    ensures x in EvidenceReasons(reg, project, event, fixId) <==>
      || (x == ForbiddenAction
          && (NamesForbidden(reg, fixId)
              || (fixId in reg.descriptions && NamesForbidden(reg, reg.descriptions[fixId]))))
      || (x == RemoteProjectDirMissing && project.isRemote && project.remoteProjectDir == "")
      || (x == ProjectDirMissing && !project.isRemote && project.projectDir == "")
      || (x == InsufficientEvidence && event.excerpt == "" && event.summary == "" && event.keywords == [])
      || (x == RollbackDisabled && !project.policy.rollbackOnFailure)
  {
  }

  lemma ChangeReasonIff(project: Project, eventType: string, spec: SafeSpec, read: ReadResult, x: GateReason)
    ensures x in ChangeReasons(project, eventType, spec, read) <==>
      || (x == FixEventTypeMismatch && spec.eventType != eventType)
      || (x == ProjectDirMissing && project.EffectiveDir() == "")
      || (x == ConfigMissing && read.status == ReadMissing)
      || (x == InvalidJson && read.status == ReadInvalid)
      || (x == UnsafePath && read.status == ReadUnsafePath)
      || (x == TargetFieldMissing && read.status == ReadOk && read.planned == [])
      || (x == UnsafeTransition && CountUnsafe(read.planned) > 0 && CountActionable(read.planned) == 0)
      || (x == RollbackPlanUnavailable && !project.policy.rollbackOnFailure)
  {
  }

  lemma BaseReasonIff(reg: Registry, host: Host, project: Project, eventType: string, fixId: string, view: View,
                      x: GateReason)
    ensures x in BuildPrecheck(reg, host, project, eventType, fixId, view).reasons <==>
      match SpecByFix(reg.safe, fixId)
      case None => x == FixSafetySpecMissing
      case Some(spec) => x in ChangeReasons(project, eventType, spec, ReadConfig(host, project, spec, view))
  {
  }

  /** The objections of the whole precheck are those of the evidence, the change, the settings and the event. */
  lemma PrecheckReasonIff(reg: Registry, host: Host, project: Project, event: Event, fixId: string, view: View,
                          x: GateReason)
    ensures x in RunPrecheck(reg, host, project, event, fixId, view).reasons <==>
      || (x == AmbiguousEvidence && Ambiguous(reg, host, event, fixId))
      || x in BuildPrecheck(reg, host, project, event.eventType, fixId, view).reasons
      || x in SettingReasons(reg, project, event, fixId)
      || x in EvidenceReasons(reg, project, event, fixId)
  {
  }

  // ----- evidence and forbidden actions -----

  lemma JoinedIsEmptyIff(words: seq<string>)
    ensures Joined(words) == "" <==> words == [] || words == [""]
  {
  }

  /**
   Evidence is ambiguous exactly if there is some, and one of the rules for the fix finds its marks: two that overlap,
   or one without its context.
   */
  lemma AmbiguousIff(reg: Registry, host: Host, event: Event, fixId: string)
    ensures Ambiguous(reg, host, event, fixId) <==>
      && fixId != ""
      && (event.excerpt != "" || event.summary != "" || event.signature != "" || Joined(event.keywords) != "")
      && exists rule | rule in reg.ambiguity && fixId in rule.fixes ::
           || (rule.Overlap? && host.matches(event, rule.first) && host.matches(event, rule.second))
           || (rule.MissingContext? && host.matches(event, rule.found) && !host.matches(event, rule.context))
  {
    JoinedIsEmptyIff(event.keywords);
    if rule :| rule in reg.ambiguity && Fires(rule, host, event, fixId) {
      assert fixId in rule.fixes;
    }
    if rule :| rule in reg.ambiguity && fixId in rule.fixes
               && ((rule.Overlap? && host.matches(event, rule.first) && host.matches(event, rule.second))
                   || (rule.MissingContext? && host.matches(event, rule.found) && !host.matches(event, rule.context)))
    {
      assert Fires(rule, host, event, fixId);
    }
  }

  /** The words of a text in lower case, one blank apart. */
  function WordsOf(text: string): string {
    Joined(Words(Lower(Strip(text))))
  }

  /** A text names a forbidden action exactly if the words of one stand in its own. */
  lemma NamesForbiddenIff(reg: Registry, text: string)
    ensures NamesForbidden(reg, text) <==>
      exists f | f in reg.forbidden :: WordsOf(f) != "" && StandsIn(WordsOf(f), WordsOf(text))
  {
    NormalizeIs(text);
    forall f | f in reg.forbidden
      ensures Normalize(f) == WordsOf(f)
      ensures Contains(Normalize(text), Normalize(f)) <==> StandsIn(WordsOf(f), WordsOf(text))
    {
      NormalizeIs(f);
      ContainsIff(Normalize(text), Normalize(f));
    }
    if f :| f in reg.forbidden && WordsOf(f) != "" && StandsIn(WordsOf(f), WordsOf(text)) {
      assert Normalize(f) != "" && Contains(Normalize(text), Normalize(f));
    }
    if NamesForbidden(reg, text) {
      var f :| f in reg.forbidden && Normalize(f) != "" && Contains(Normalize(text), Normalize(f));
      assert WordsOf(f) != "" && StandsIn(WordsOf(f), WordsOf(text));
    }
  }

  // ----- the plan of a file that was read -----

  /** Some candidate of the list gets this verdict from the executor. */
  predicate SomeVerdict(data: Json, candidates: seq<FieldCandidate>, probe: Probe, v: Executor.Verdict) {
    exists c | c in candidates :: Executor.VerdictOf(data, c, probe) == v
  }

  /** What the plan counts is what the executor would find: fields to write, refused ones, safe ones, none at all. */
  lemma {:induction false} PlanCounts(data: Json, candidates: seq<FieldCandidate>, probe: Probe)
    ensures var planned := Plan(data, candidates, probe);
      && (CountActionable(planned) > 0 <==> SomeVerdict(data, candidates, probe, Executor.Writable))
      && (CountUnsafe(planned) > 0 <==> SomeVerdict(data, candidates, probe, Executor.Refused))
      && (CountNoOp(planned) > 0 <==> SomeVerdict(data, candidates, probe, Executor.AlreadySafe))
      && (planned == [] <==> forall c | c in candidates :: Lookup(data, c.path).None?)
    decreases candidates
  {
    if candidates != [] {
      var c := candidates[0];
      PlanCounts(data, candidates[1..], probe);
      PlanFirst(data, candidates, probe);
      forall v: Executor.Verdict ensures SomeVerdict(data, candidates, probe, v) <==>
          Executor.VerdictOf(data, c, probe) == v || SomeVerdict(data, candidates[1..], probe, v)
      {
        assert c in candidates && forall d :: d in candidates <==> d == c || d in candidates[1..];
      }
      assert forall d :: d in candidates <==> d == c || d in candidates[1..];
    }
  }

  /** There is nothing left to do exactly if some planned field is as safe as it should be, and no other is planned. */
  lemma NothingLeftIff(reg: Registry, host: Host, project: Project, event: Event, fixId: string, view: View)
    ensures var p := RunPrecheck(reg, host, project, event, fixId, view);
      match SpecByFix(reg.safe, fixId)
      case None =>
        p.planned == [] && p.actionableCount == p.unsafeCount == 0 && !p.noOp && !p.rollbackPlanAvailable
      case Some(spec) =>
        && p.planned == ReadConfig(host, project, spec, view).planned
        && p.actionableCount == CountActionable(p.planned) && p.unsafeCount == CountUnsafe(p.planned)
        && (p.noOp <==> 1 <= CountNoOp(p.planned) && p.actionableCount + p.unsafeCount == 0)
        && p.rollbackPlanAvailable == project.policy.rollbackOnFailure
  {
  }

  lemma PlanFirst(data: Json, candidates: seq<FieldCandidate>, probe: Probe)
    requires candidates != []
    ensures var planned, rest := Plan(data, candidates, probe), Plan(data, candidates[1..], probe);
      var v := Executor.VerdictOf(data, candidates[0], probe);
      && CountActionable(planned) == CountActionable(rest) + (if v == Executor.Writable then 1 else 0)
      && CountUnsafe(planned) == CountUnsafe(rest) + (if v == Executor.Refused then 1 else 0)
      && CountNoOp(planned) == CountNoOp(rest) + (if v == Executor.AlreadySafe then 1 else 0)
      && (planned == [] <==> v == Executor.Missing && rest == [])
  {
    var c := candidates[0];
    var rest := Plan(data, candidates[1..], probe);
    if Lookup(data, c.path).Some? {
      var first := PlannedEdit(c.path, Lookup(data, c.path), c.target,
                               LocalTransition(c.rule, data, Lookup(data, c.path).value, c.target, probe));
      assert Plan(data, candidates, probe) == [first] + rest;
      assert ([first] + rest)[1..] == rest;
      TransitionTrichotomy(c.rule, Lookup(data, c.path).value, c.target, None);
    }
  }
}
