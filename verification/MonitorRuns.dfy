/** Runs of whole cycles and restarts: what is handled, how often, and what the counters say of it. */
module MonitorRuns {
  import opened Wrappers
  import opened Projects
  import opened Hosts
  import opened Runner
  import opened RateLimit
  import opened StateStore
  import opened Monitor

  /** Everything handled so far: handling attempts of the running process, completed events of all processes. */
  datatype History = History(monitor: MonitorState, attempts: seq<(string, real)>, completed: seq<Event>)

  datatype MonitorOp =
    | Polls(events: seq<Event>, cs: seq<Circumstances>)
    | Restarts(runner: RunnerState)

  ghost predicate PossibleOp(op: MonitorOp) {
    op.Polls? ==> |op.events| == |op.cs| && forall c | c in op.cs :: c.reportAt <= c.reportStamp
  }

  function With(h: History, s: Cycle): History {
    History(s.monitor, h.attempts + s.attempts, h.completed + s.completed)
  }

  ghost function OpStep(cfg: MonitorSetup, h: History, op: MonitorOp): History
    requires PossibleOp(op)
  {
    match op
    case Polls(events, cs) =>
      var s := CycleOf(cfg, h.monitor, events, cs);
      With(h, s).(monitor := Summarize(cfg, s).0)
    case Restarts(runner) =>
      h.(monitor := Started(cfg, h.monitor.file, runner), attempts := [])
  }

  /** A restart that finds room in the state file for every fingerprint. */
  ghost predicate RestartFits(cfg: MonitorSetup, h: History, op: MonitorOp) {
    op.Restarts? ==> cfg.persistent && |h.monitor.seen| <= cfg.maxSeen
  }

  ghost predicate HistoryRun(cfg: MonitorSetup, hs: seq<History>, ops: seq<MonitorOp>) {
    && |hs| == |ops| + 1
    && (exists file, runner :: hs[0] == History(Started(cfg, file, runner), [], []))
    && forall i | 0 <= i < |ops| :: PossibleOp(ops[i]) && hs[i + 1] == OpStep(cfg, hs[i], ops[i])
  }

  ghost predicate DistinctEvents(events: seq<Event>) {
    forall i, j | 0 <= i < j < |events| :: events[i].fingerprint != events[j].fingerprint
  }

  /** The seen set and the total account for the completed events, each completed once. */
  ghost predicate Accounted(cfg: MonitorSetup, base: MonitorState, h: History) {
    && (forall e | e in h.completed :: e.fingerprint in h.monitor.seen && e.fingerprint !in base.seen)
    && (forall f | f in h.monitor.seen :: f in base.seen || exists e :: e in h.completed && e.fingerprint == f)
    && base.seen <= h.monitor.seen
    && DistinctEvents(h.completed)
    && |h.monitor.seen| == |base.seen| + |h.completed|
    && h.monitor.eventsTotal == base.eventsTotal + if cfg.persistent then |h.completed| else 0
  }

  /** The file holds what the process knows, as long as there is room. */
  ghost predicate Persisted(cfg: MonitorSetup, m: MonitorState) {
    cfg.persistent ==>
      Found(m.file).eventsTotal == m.eventsTotal
      && (|m.seen| <= cfg.maxSeen ==> Elements(Found(m.file).seen) == m.seen)
  }

  /** Two attempts for one fingerprint are at least `gap` apart. */
  ghost predicate Spaced(attempts: seq<(string, real)>, gap: real) {
    forall i, j | 0 <= i < j < |attempts| && attempts[i].0 == attempts[j].0 :: attempts[j].1 - attempts[i].1 >= gap
  }

  ghost predicate Paced(cfg: MonitorSetup, h: History) {
    cfg.limits.reportCooldown > 0 ==>
      && Spaced(h.attempts, cfg.limits.reportCooldown as real)
      && forall a | a in h.attempts :: a.0 in h.monitor.rate.lastReport && a.1 <= h.monitor.rate.lastReport[a.0]
  }

  // ----- one event -----

  lemma MarkKeepsAccounted(cfg: MonitorSetup, base: MonitorState, h: History, event: Event)
    requires Accounted(cfg, base, h) && event.fingerprint !in h.monitor.seen
    ensures Accounted(cfg, base, h.(monitor := MarkSeen(cfg, h.monitor, event), completed := h.completed + [event]))
    ensures Persisted(cfg, MarkSeen(cfg, h.monitor, event))
  {
  }

  lemma AdmitKeeps(cfg: MonitorSetup, h: History, s: Cycle, event: Event, c: Circumstances, candidate: bool)
    requires Paced(cfg, With(h, s)) && c.reportAt <= c.reportStamp
    ensures var (s', admitted) := Admit(cfg, s, event, c, candidate);
      && Paced(cfg, With(h, s'))
      && s'.monitor == s.monitor.(rate := s'.monitor.rate) && s'.completed == s.completed
      && (admitted ==> event.fingerprint !in s.monitor.seen)
  {
    var (s', admitted) := Admit(cfg, s, event, c, candidate);
    if admitted && cfg.limits.reportCooldown > 0 {
      var before, after := h.attempts + s.attempts, h.attempts + s'.attempts;
      assert after == before + [(event.fingerprint, c.reportStamp)];
      forall i | 0 <= i < |before| && before[i].0 == event.fingerprint
        ensures c.reportStamp - before[i].1 >= cfg.limits.reportCooldown as real
      {
        assert before[i] in before;
      }
    }
  }

  lemma HandledKeeps(cfg: MonitorSetup, base: MonitorState, h: History, s: Cycle, event: Event, handling: Handling,
                     runner: RunnerState, executed: bool)
    requires Accounted(cfg, base, With(h, s)) && Persisted(cfg, s.monitor) && Paced(cfg, With(h, s))
    requires event.fingerprint !in s.monitor.seen
    ensures var s' := Handled(cfg, s, event, handling, runner, executed);
      Accounted(cfg, base, With(h, s')) && Persisted(cfg, s'.monitor) && Paced(cfg, With(h, s'))
  {
    var s' := Handled(cfg, s, event, handling, runner, executed);
    if handling == Completes {
      var h1 := With(h, s).(monitor := s.monitor.(runner := runner));
      assert Accounted(cfg, base, h1);
      MarkKeepsAccounted(cfg, base, h1, event);
      assert With(h, s').completed == h1.completed + [event];
    } else {
      assert With(h, s').completed == With(h, s).completed;
    }
    assert With(h, s').attempts == With(h, s).attempts;
  }

  lemma TreatWithKeeps(cfg: MonitorSetup, base: MonitorState, h: History, s: Cycle, event: Event, c: Circumstances,
                       candidate: bool, runner: RunnerState, executed: bool)
    requires Accounted(cfg, base, With(h, s)) && Persisted(cfg, s.monitor) && Paced(cfg, With(h, s))
    requires c.reportAt <= c.reportStamp
    ensures var s' := TreatWith(cfg, s, event, c, candidate, runner, executed);
      Accounted(cfg, base, With(h, s')) && Persisted(cfg, s'.monitor) && Paced(cfg, With(h, s'))
  {
    AdmitKeeps(cfg, h, s, event, c, candidate);
    var (s1, admitted) := Admit(cfg, s, event, c, candidate);
    assert Accounted(cfg, base, With(h, s1));
    if admitted {
      HandledKeeps(cfg, base, h, s1, event, c.handling, runner, executed);
    }
  }

  // ----- one cycle -----

  lemma {:induction false} CycleKeeps(cfg: MonitorSetup, base: MonitorState, h: History, start: Cycle,
                                      events: seq<Event>,
                                      cs: seq<Circumstances>)
    requires |events| == |cs| && forall c | c in cs :: c.reportAt <= c.reportStamp
    requires Accounted(cfg, base, With(h, start)) && Persisted(cfg, start.monitor) && Paced(cfg, With(h, start))
    ensures var s := TreatAll(cfg, start, events, cs);
      Accounted(cfg, base, With(h, s)) && Persisted(cfg, s.monitor) && Paced(cfg, With(h, s))
    decreases |events|
  {
    if events != [] {
      var n := |events| - 1;
      CycleKeeps(cfg, base, h, start, events[..n], cs[..n]);
      var s := TreatAll(cfg, start, events[..n], cs[..n]);
      var (runner, result) := Recovery(cfg.recovery, s.monitor.runner, CallFor(events[n], cs[n]));
      TreatWithKeeps(cfg, base, h, s, events[n], cs[n], ChecksAsCandidate(cfg, s.monitor.runner, events[n], cs[n]),
                     runner,
                     result.executed);
    }
  }

  lemma RestartKeeps(cfg: MonitorSetup, base: MonitorState, h: History, runner: RunnerState)
    requires cfg.persistent && |h.monitor.seen| <= cfg.maxSeen
    requires Accounted(cfg, base, h) && Persisted(cfg, h.monitor)
    ensures var h' := h.(monitor := Started(cfg, h.monitor.file, runner), attempts := []);
      Accounted(cfg, base, h') && Persisted(cfg, h'.monitor) && Paced(cfg, h')
  {
    assert Started(cfg, h.monitor.file, runner).seen == h.monitor.seen;
  }

  lemma SummaryKeeps(cfg: MonitorSetup, base: MonitorState, h: History, s: Cycle)
    requires Accounted(cfg, base, With(h, s)) && Persisted(cfg, s.monitor) && Paced(cfg, With(h, s))
    ensures var h' := With(h, s).(monitor := Summarize(cfg, s).0);
      Accounted(cfg, base, h') && Persisted(cfg, h'.monitor) && Paced(cfg, h')
  {
    var m := Summarize(cfg, s).0;
    assert m == s.monitor.(rate := m.rate) && m.rate.lastReport == s.monitor.rate.lastReport;
  }

  lemma StepKeeps(cfg: MonitorSetup, base: MonitorState, h: History, op: MonitorOp)
    requires PossibleOp(op) && RestartFits(cfg, h, op)
    requires Accounted(cfg, base, h) && Persisted(cfg, h.monitor) && Paced(cfg, h)
    ensures var h' := OpStep(cfg, h, op); Accounted(cfg, base, h') && Persisted(cfg, h'.monitor) && Paced(cfg, h')
  {
    match op
    case Polls(events, cs) =>
      var start := StartOf(h.monitor);
      assert With(h, start).attempts == h.attempts && With(h, start).completed == h.completed;
      CycleKeeps(cfg, base, h, start, events, cs);
      SummaryKeeps(cfg, base, h, CycleOf(cfg, h.monitor, events, cs));
    case Restarts(runner) =>
      RestartKeeps(cfg, base, h, runner);
  }

  /**
   Over any run of cycles and restarts in which every restart finds room for the fingerprints: no fingerprint is
   handled to completion twice, the seen set and the persisted total grow by exactly one for each completed event,
   and in the running process two attempts for one fingerprint are at least the report cooldown apart.
   */
  lemma {:induction false} HandledOnce(cfg: MonitorSetup, hs: seq<History>, ops: seq<MonitorOp>, n: nat)
    requires HistoryRun(cfg, hs, ops) && n <= |ops|
    requires forall i | 0 <= i < n :: RestartFits(cfg, hs[i], ops[i])
    ensures Accounted(cfg, hs[0].monitor, hs[n]) && Persisted(cfg, hs[n].monitor) && Paced(cfg, hs[n])
  {
    if n > 0 {
      HandledOnce(cfg, hs, ops, n - 1);
      StepKeeps(cfg, hs[0].monitor, hs[n - 1], ops[n - 1]);
    }
  }

  // ----- how much one cycle does -----

  /** The counters of a cycle count its attempts, and stay within the limits. */
  ghost predicate WithinLimits(cfg: MonitorSetup, s: Cycle) {
    var rate := s.monitor.rate;
    && |s.completed| + s.failed == |s.attempts| == rate.eventsHandled
    && rate.reportsReserved == (if cfg.autoReport then 2 * |s.attempts| else |s.attempts|)
    && (s.attempts != [] ==> |s.attempts| <= cfg.limits.maxEvents && rate.reportsReserved <= cfg.limits.maxReports)
  }

  lemma TreatWithStaysWithin(cfg: MonitorSetup, s: Cycle, event: Event, c: Circumstances, candidate: bool,
                             runner: RunnerState,
                             executed: bool)
    requires WithinLimits(cfg, s)
    ensures WithinLimits(cfg, TreatWith(cfg, s, event, c, candidate, runner, executed))
  {
    AdmitStaysWithin(cfg, s, event, c, candidate);
  }

  lemma AdmitStaysWithin(cfg: MonitorSetup, s: Cycle, event: Event, c: Circumstances, candidate: bool)
    requires WithinLimits(cfg, s)
    ensures var (s', admitted) := Admit(cfg, s, event, c, candidate);
      WithinLimits(cfg, if admitted then s'.(failed := s'.failed + 1) else s')
  {
    assert AtLeastOne(ExpectedReports(cfg)) == if cfg.autoReport then 2 else 1;
  }

  lemma {:induction false} CycleWithinLimits(cfg: MonitorSetup, m: MonitorState, events: seq<Event>,
                                             cs: seq<Circumstances>)
    requires |events| == |cs|
    ensures WithinLimits(cfg, CycleOf(cfg, m, events, cs))
    decreases |events|
  {
    if events != [] {
      var n := |events| - 1;
      CycleWithinLimits(cfg, m, events[..n], cs[..n]);
      var s := TreatAll(cfg, StartOf(m), events[..n], cs[..n]);
      var (runner, result) := Recovery(cfg.recovery, s.monitor.runner, CallFor(events[n], cs[n]));
      TreatWithStaysWithin(cfg, s, events[n], cs[n], ChecksAsCandidate(cfg, s.monitor.runner, events[n], cs[n]), runner,
                           result.executed);
    }
  }

  /**
   With the limits every monitor starts with, the summary report of a cycle is never refused, at most three events
   are handled in a cycle, and at most two when each of them asks for two reports.
   */
  lemma SummaryNeverRefused(cfg: MonitorSetup, m: MonitorState, events: seq<Event>, cs: seq<Circumstances>)
    requires |events| == |cs| && cfg.limits == DEFAULT_LIMITS
    ensures var s := CycleOf(cfg, m, events, cs);
      && (Summarize(cfg, s).1 <==> s.completed != [])
      && |s.attempts| <= if cfg.autoReport then 2 else 3
  {
    CycleWithinLimits(cfg, m, events, cs);
  }
}
