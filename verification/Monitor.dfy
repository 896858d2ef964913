/** One cycle of the monitor: which of the selected events are handled, and what is remembered of them. */
module Monitor {
  import opened Wrappers
  import opened Projects
  import opened Hosts
  import opened Cooldown
  import opened Gate
  import opened GateTheorems
  import opened Runner
  import opened RateLimit
  import opened StateStore
  import Selection

  datatype MonitorSetup = MonitorSetup(
    recovery: Setup,
    limits: RateConfig,
    autoReport: bool,
    persistent: bool,
    maxSeen: int)

  const MAX_AUTO_RECOVER_PER_CYCLE := 1

  /** How the handling of an event ends: it may raise before or after the recovery call. */
  datatype Handling = Completes | RaisesBefore | RaisesAfter

  /**
   What the cycle learns from outside while it treats one event: what the candidate check sees and whether it
   raises, the clock readings of the report reservation, how the handling ends, and the circumstances of the
   recovery call.
   */
  datatype Circumstances = Circumstances(
    checkView: View,
    checkAt: real,
    checkRaises: bool,
    reportAt: real,
    reportStamp: real,
    handling: Handling,
    call: Call)

  datatype MonitorState = MonitorState(
    seen: set<string>,
    eventsTotal: nat,
    file: Option<Saved>,
    rate: RateState,
    runner: RunnerState)

  /** The state of a process that starts. Without persistence the file is neither read nor written. */
  function Started(cfg: MonitorSetup, file: Option<Saved>, runner: RunnerState): MonitorState {
    var state := if cfg.persistent then Found(file) else NOTHING_SAVED;
    MonitorState(Elements(state.seen), state.eventsTotal, file, FRESH_STATE, runner)
  }

  /** The state of a cycle in progress. `attempts` lists the fingerprints whose handling began, with the time. */
  datatype Cycle = Cycle(
    monitor: MonitorState,
    candidates: nat,
    lives: nat,
    attempts: seq<(string, real)>,
    completed: seq<Event>,
    failed: nat)

  function CallFor(event: Event, c: Circumstances): Call {
    c.call.(event := event, approvalId := "")
  }

  function ExpectedReports(cfg: MonitorSetup): nat {
    if cfg.autoReport then 2 else 1
  }

  predicate ChecksAsCandidate(cfg: MonitorSetup, runner: RunnerState, event: Event, c: Circumstances) {
    var setup := cfg.recovery;
    !c.checkRaises &&
    IsRecoverCandidate(EvaluateGate(setup.reg, setup.site.host, setup.project, event,
                                    Check(runner.cooldown, LimitsOf(setup.project), KeysOf(event, setup.project),
                                          c.checkAt),
                                    c.checkView))
  }

  function MarkSeen(cfg: MonitorSetup, m: MonitorState, event: Event): MonitorState {
    var m1 := m.(seen := m.seen + {event.fingerprint});
    if !cfg.persistent then m1
    else
      m1.(eventsTotal := m.eventsTotal + 1,
          file := Some(Trimmed(Saved(Sorted(m1.seen), m.eventsTotal + 1), cfg.maxSeen)))
  }

  /** What the cycle records of an event it handled, given the outcome of the recovery call. */
  function Handled(cfg: MonitorSetup, s: Cycle, event: Event, handling: Handling, runner: RunnerState,
                   executed: bool): Cycle {
    if handling == RaisesBefore then s.(failed := s.failed + 1)
    else
      var s1 := s.(monitor := s.monitor.(runner := runner), lives := if executed then s.lives + 1 else s.lives);
      if handling == RaisesAfter then s1.(failed := s1.failed + 1)
      else s1.(monitor := MarkSeen(cfg, s1.monitor, event), completed := s1.completed + [event])
  }

  /** From the candidate check to the report reservation; the flag says whether the event is handled. */
  function AdmitChecked(cfg: MonitorSetup, s: Cycle, event: Event, c: Circumstances, candidate: bool): (Cycle, bool) {
    if candidate && s.candidates >= MAX_AUTO_RECOVER_PER_CYCLE then (s, false)
    else
      var s1 := s.(candidates := if candidate then s.candidates + 1 else s.candidates);
      var (rate, reserved) :=
        ReserveReport(cfg.limits, s1.monitor.rate, event, ExpectedReports(cfg), c.reportAt, c.reportStamp);
      if !reserved then (s1, false)
      else
        (s1.(monitor := s1.monitor.(rate := EventHandled(rate)),
             attempts := s1.attempts + [(event.fingerprint, c.reportStamp)]),
         true)
  }

  /** Everything in an iteration that comes before the handling. */
  function Admit(cfg: MonitorSetup, s: Cycle, event: Event, c: Circumstances, candidate: bool): (Cycle, bool) {
    if event.fingerprint in s.monitor.seen || !AllowsEvent(cfg.limits, s.monitor.rate) then (s, false)
    else AdmitChecked(cfg, s, event, c, candidate)
  }

  /** One iteration, given what the candidate check and the recovery call would answer. */
  function TreatWith(cfg: MonitorSetup, s: Cycle, event: Event, c: Circumstances, candidate: bool, runner: RunnerState,
                     executed: bool): Cycle {
    var (s1, admitted) := Admit(cfg, s, event, c, candidate);
    if admitted then Handled(cfg, s1, event, c.handling, runner, executed) else s1
  }

  function TreatEvent(cfg: MonitorSetup, s: Cycle, event: Event, c: Circumstances): Cycle {
    var (runner, result) := Recovery(cfg.recovery, s.monitor.runner, CallFor(event, c));
    TreatWith(cfg, s, event, c, ChecksAsCandidate(cfg, s.monitor.runner, event, c), runner, result.executed)
  }

  function TreatAll(cfg: MonitorSetup, s: Cycle, events: seq<Event>, cs: seq<Circumstances>): Cycle
    requires |events| == |cs|
    decreases |events|
  {
    if events == [] then s
    else
      var n := |events| - 1;
      TreatEvent(cfg, TreatAll(cfg, s, events[..n], cs[..n]), events[n], cs[n])
  }

  function StartOf(m: MonitorState): Cycle {
    Cycle(m.(rate := BeginCycle(m.rate)), 0, 0, [], [], 0)
  }

  /** The summary report is reserved when some event was handled to completion. */
  function Summarize(cfg: MonitorSetup, s: Cycle): (MonitorState, bool) {
    if s.completed == [] then (s.monitor, false)
    else
      var (rate, allowed) := ReserveCycleReport(cfg.limits, s.monitor.rate);
      (s.monitor.(rate := rate), allowed)
  }

  function CycleOf(cfg: MonitorSetup, m: MonitorState, events: seq<Event>, cs: seq<Circumstances>): Cycle
    requires |events| == |cs|
  {
    TreatAll(cfg, StartOf(m), events, cs)
  }

  class MonitorLoop {
    const cfg: MonitorSetup
    const rate: RateLimitTracker
    const runner: AutoRecoveryRunner
    const stateStore: MonitorStateStore
    var seen: set<string>
    var eventsTotal: nat

    constructor (cfg: MonitorSetup, rate: RateLimitTracker, runner: AutoRecoveryRunner, stateStore: MonitorStateStore)
      requires rate.config == cfg.limits && rate.State() == FRESH_STATE
      requires runner.cfg == cfg.recovery && runner.Valid() && stateStore.maxSeen == cfg.maxSeen
      ensures this.cfg == cfg && this.rate == rate && this.runner == runner && this.stateStore == stateStore
      ensures Valid() && State() == Started(cfg, stateStore.file, runner.State())
    {
      this.cfg, this.rate, this.runner, this.stateStore := cfg, rate, runner, stateStore;
      seen, eventsTotal := {}, 0;
      new;
      if cfg.persistent {
        var state := stateStore.Load();
        seen := Elements(state.seen);
        eventsTotal := state.eventsTotal;
      }
    }

    ghost predicate Valid() {
      rate.config == cfg.limits && runner.cfg == cfg.recovery && runner.Valid() && stateStore.maxSeen == cfg.maxSeen
    }

    function State(): MonitorState
      reads this, rate, stateStore, runner.tracker, runner.store, runner.executor, runner.remoteExecutor
    {
      MonitorState(seen, eventsTotal, stateStore.file, rate.State(), runner.State())
    }

    method MarkEventSeen(event: Event)
      requires Valid()
      modifies this, stateStore
      ensures State() == MarkSeen(cfg, old(State()), event)
    {
      seen := seen + {event.fingerprint};
      if !cfg.persistent {
        return;
      }
      eventsTotal := eventsTotal + 1;
      var _ := stateStore.Save(Saved(Sorted(seen), eventsTotal));
    }

    /** The counters of a cycle agree with the objects and locals that hold them. */
    ghost predicate InStep(s: Cycle, candidates: nat, completed: seq<Event>, failed: nat)
      reads this, rate, stateStore, runner.tracker, runner.store, runner.executor, runner.remoteExecutor
    {
      s.monitor == State() && s.candidates == candidates && s.completed == completed && s.failed == failed
    }

    /** Handle one event for which a report is reserved. False when the handling raised. */
    method Handle(event: Event, c: Circumstances, ghost s: Cycle) returns (ok: bool, ghost s': Cycle)
      requires Valid() && s.monitor == State()
      modifies this, stateStore, runner.tracker, runner.store, runner.executor, runner.remoteExecutor
      ensures var (after, result) := Recovery(cfg.recovery, s.monitor.runner, CallFor(event, c));
        s' == Handled(cfg, s, event, c.handling, after, result.executed)
      ensures InStep(s', s.candidates, if ok then s.completed + [event] else s.completed,
                     if ok then s.failed else s.failed + 1)
    {
      if c.handling == RaisesBefore {
        return false, s.(failed := s.failed + 1);
      }
      var result := runner.Recover(CallFor(event, c));
      s' := Handled(cfg, s, event, c.handling, runner.State(), result.executed);
      if c.handling == RaisesAfter {
        return false, s';
      }
      MarkEventSeen(event);
      return true, s';
    }

    method CheckCandidate(event: Event, c: Circumstances) returns (candidate: bool)
      requires Valid()
      ensures candidate == ChecksAsCandidate(cfg, runner.State(), event, c)
    {
      if c.checkRaises {
        return false;
      }
      candidate := runner.IsAutoRecoverCandidate(event, c.checkView, c.checkAt);
    }

    method ReserveForEvent(event: Event, c: Circumstances, candidate: bool, candidates: nat, ghost s: Cycle)
      returns (candidates': nat, admitted: bool, ghost s': Cycle)
      requires Valid() && InStep(s, candidates, s.completed, s.failed)
      modifies rate
      ensures (s', admitted) == AdmitChecked(cfg, s, event, c, candidate)
      ensures InStep(s', candidates', s.completed, s.failed)
    {
      candidates', admitted, s' := candidates, false, s;
      if candidate && candidates >= MAX_AUTO_RECOVER_PER_CYCLE {
        return;
      }
      if candidate {
        candidates' := candidates + 1;
        s' := s'.(candidates := candidates');
      }
      admitted := rate.ReserveReportCapacity(event, ExpectedReports(cfg), c.reportAt, c.reportStamp);
      if admitted {
        rate.RecordEventHandled();
        s' := s'.(monitor := State(), attempts := s'.attempts + [(event.fingerprint, c.reportStamp)]);
      }
    }

    /** The checks and reservations that come before an event is handled. */
    method AdmitEvent(event: Event, c: Circumstances, candidates: nat, ghost s: Cycle)
      returns (candidates': nat, admitted: bool, ghost s': Cycle)
      requires Valid() && InStep(s, candidates, s.completed, s.failed)
      modifies rate
      ensures (s', admitted) == Admit(cfg, s, event, c, ChecksAsCandidate(cfg, s.monitor.runner, event, c))
      ensures InStep(s', candidates', s.completed, s.failed)
    {
      if event.fingerprint in seen {
        return candidates, false, s;
      }
      var allowed := rate.AllowEvent();
      if !allowed {
        return candidates, false, s;
      }
      var candidate := CheckCandidate(event, c);
      candidates', admitted, s' := ReserveForEvent(event, c, candidate, candidates, s);
    }

    /** One iteration of the cycle's loop. */
    method Treat(event: Event, c: Circumstances, candidates: nat, completed: seq<Event>, failed: nat, ghost s: Cycle)
      returns (candidates': nat, completed': seq<Event>, failed': nat, ghost s': Cycle)
      requires Valid() && InStep(s, candidates, completed, failed)
      modifies this, rate, stateStore, runner.tracker, runner.store, runner.executor, runner.remoteExecutor
      ensures s' == TreatEvent(cfg, s, event, c) && InStep(s', candidates', completed', failed')
    {
      completed', failed' := completed, failed;
      var admitted;
      candidates', admitted, s' := AdmitEvent(event, c, candidates, s);
      if admitted {
        var ok;
        ok, s' := Handle(event, c, s');
        if ok {
          completed' := completed + [event];
        } else {
          failed' := failed + 1;
        }
      }
    }

    /** The events selected for the cycle, one after the other, and then the summary report. */
    method HandleEvents(events: seq<Event>, cs: seq<Circumstances>)
      returns (completed: seq<Event>, failed: nat, summary: bool, ghost cycle: Cycle)
      requires Valid() && |events| == |cs|
      modifies this, rate, stateStore, runner.tracker, runner.store, runner.executor, runner.remoteExecutor
      ensures cycle == CycleOf(cfg, old(State()), events, cs)
      ensures completed == cycle.completed && failed == cycle.failed
      ensures (State(), summary) == Summarize(cfg, cycle)
    {
      ghost var start := StartOf(State());
      rate.StartCycle();
      var candidates := 0;
      completed, failed := [], 0;
      cycle := start;
      for i := 0 to |events|
        invariant cycle == TreatAll(cfg, start, events[..i], cs[..i])
        invariant InStep(cycle, candidates, completed, failed)
      {
        TreatOneMore(cfg, start, events, cs, i);
        candidates, completed, failed, cycle := Treat(events[i], cs[i], candidates, completed, failed, cycle);
      }
      assert events[..|events|] == events && cs[..|cs|] == cs;
      summary := false;
      if completed != [] {
        summary := rate.ReserveCycleReportCapacity();
      }
    }

    /** A whole cycle over what the poll detected: selection, handling and summary. */
    method RunOnce(detected: seq<Event>, maxPerRun: int, cs: seq<Circumstances>)
      returns (completed: seq<Event>, failed: nat, summary: bool, ghost cycle: Cycle)
      requires Valid() && |detected| <= |cs|
      modifies this, rate, stateStore, runner.tracker, runner.store, runner.executor, runner.remoteExecutor
      ensures var events := Selection.Selected(old(seen), detected, maxPerRun);
        cycle == CycleOf(cfg, old(State()), events, cs[..|events|])
      ensures completed == cycle.completed && failed == cycle.failed
      ensures (State(), summary) == Summarize(cfg, cycle)
    {
      var events := Selection.SelectEventsForCycle(seen, detected, maxPerRun);
      completed, failed, summary, cycle := HandleEvents(events, cs[..|events|]);
    }
  }

  lemma TreatOneMore(cfg: MonitorSetup, s: Cycle, events: seq<Event>, cs: seq<Circumstances>, i: nat)
    requires i < |events| == |cs|
    ensures TreatAll(cfg, s, events[..i + 1], cs[..i + 1]) ==
      TreatEvent(cfg, TreatAll(cfg, s, events[..i], cs[..i]), events[i], cs[i])
  {
    assert events[..i + 1][..i] == events[..i] && cs[..i + 1][..i] == cs[..i];
  }
}
