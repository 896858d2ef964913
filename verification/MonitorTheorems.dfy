/** What one cycle, and any run of cycles, of the monitor guarantees. */
module MonitorTheorems {
  import opened Wrappers
  import opened Projects
  import opened Hosts
  import opened Cooldown
  import opened Gate
  import opened GateTheorems
  import opened Runner
  import opened RunnerTheorems
  import opened RateLimit
  import opened Monitor

  // ----- at most one live apply per cycle -----

  /** The candidate check of an event did not see what its recovery call sees. */
  ghost predicate Unstable(c: Circumstances) {
    c.checkRaises || c.checkView != c.call.view
  }

  ghost function UnstableCount(cs: seq<Circumstances>): nat {
    if cs == [] then 0
    else UnstableCount(cs[..|cs| - 1]) + if Unstable(cs[|cs| - 1]) then 1 else 0
  }

  /** An event that executes was counted as a candidate, unless its circumstances changed in between. */
  lemma ExecutedWasChecked(cfg: MonitorSetup, runner: RunnerState, event: Event, c: Circumstances)
    requires Recovery(cfg.recovery, runner, CallFor(event, c)).1.executed && !Unstable(c)
    ensures ChecksAsCandidate(cfg, runner, event, c)
  {
    var setup := cfg.recovery;
    var call := CallFor(event, c);
    RecoveryCases(setup, runner, call);
    FreshGateIsAuthorized(setup, runner.cooldown, call);
    DecideFromKeeps(setup, runner.cooldown, runner.log, call, FreshGate(setup, runner.cooldown, call));
    var keys := KeysOf(event, setup.project);
    AllowedWasCandidate(setup.reg, setup.site.host, setup.project, event,
                        Check(runner.cooldown, LimitsOf(setup.project), keys, c.checkAt),
                        Check(runner.cooldown, LimitsOf(setup.project), keys, call.checkedAt), c.checkView);
  }

  lemma TreatWithCounts(cfg: MonitorSetup, s: Cycle, event: Event, c: Circumstances, candidate: bool,
                        runner: RunnerState,
                        executed: bool)
    requires s.candidates <= 1
    ensures var s' := TreatWith(cfg, s, event, c, candidate, runner, executed);
      && s.candidates <= s'.candidates <= 1
      && s'.lives + s.candidates <= s.lives + s'.candidates + if executed && !candidate then 1 else 0
  {
  }

  lemma {:induction false} LivesStep(cfg: MonitorSetup, s: Cycle, event: Event, c: Circumstances)
    requires s.candidates <= 1
    ensures var s' := TreatEvent(cfg, s, event, c);
      && s.candidates <= s'.candidates <= 1
      && s'.lives + s.candidates <= s.lives + s'.candidates + if Unstable(c) then 1 else 0
  {
    var (runner, result) := Recovery(cfg.recovery, s.monitor.runner, CallFor(event, c));
    if result.executed && !Unstable(c) {
      ExecutedWasChecked(cfg, s.monitor.runner, event, c);
    }
    TreatWithCounts(cfg, s, event, c, ChecksAsCandidate(cfg, s.monitor.runner, event, c), runner, result.executed);
  }

  lemma {:induction false} LivesBounded(cfg: MonitorSetup, m: MonitorState, events: seq<Event>, cs: seq<Circumstances>)
    requires |events| == |cs|
    ensures var s := TreatAll(cfg, StartOf(m), events, cs);
      s.candidates <= 1 && s.lives <= s.candidates + UnstableCount(cs)
    decreases |events|
  {
    if events != [] {
      var n := |events| - 1;
      LivesBounded(cfg, m, events[..n], cs[..n]);
      LivesStep(cfg, TreatAll(cfg, StartOf(m), events[..n], cs[..n]), events[n], cs[n]);
    }
  }

  /**
   In any cycle over any events, live applies exceed one only by events whose circumstances changed between the
   candidate check and the recovery call. In stable circumstances there is at most one.
   */
  lemma AtMostOneLiveApply(cfg: MonitorSetup, m: MonitorState, events: seq<Event>, cs: seq<Circumstances>)
    requires |events| == |cs|
    ensures CycleOf(cfg, m, events, cs).lives <= 1 + UnstableCount(cs)
    ensures (forall c | c in cs :: !Unstable(c)) ==> CycleOf(cfg, m, events, cs).lives <= 1
  {
    LivesBounded(cfg, m, events, cs);
    if forall c | c in cs :: !Unstable(c) {
      AllStable(cs);
    }
  }

  lemma {:induction false} AllStable(cs: seq<Circumstances>)
    requires forall c | c in cs :: !Unstable(c)
    ensures UnstableCount(cs) == 0
  {
    if cs != [] {
      AllStable(cs[..|cs| - 1]);
    }
  }
}
