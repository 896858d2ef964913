/** The recovery calls that whole runs of cycles make, and the spacing of the live applies among them. */
module CycleCalls {
  import opened Wrappers
  import opened Projects
  import opened Cooldown
  import opened Runner
  import opened CooldownRuns
  import opened RateLimit
  import opened Monitor
  import opened MonitorRuns

  /** One recovery call of a cycle: the runner before and after it, and whether it executed. */
  datatype Made = Made(before: RunnerState, call: Call, after: RunnerState, executed: bool)

  predicate Genuine(cfg: MonitorSetup, m: Made) {
    var (after, result) := Recovery(cfg.recovery, m.before, m.call);
    m.after == after && m.executed == result.executed
  }

  /** The call of one iteration, if it gets that far. */
  function MadeWith(cfg: MonitorSetup, s: Cycle, event: Event, c: Circumstances, candidate: bool, runner: RunnerState,
                    executed: bool): seq<Made> {
    if Admit(cfg, s, event, c, candidate).1 && c.handling != RaisesBefore
    then [Made(s.monitor.runner, CallFor(event, c), runner, executed)] else []
  }

  function MadeIn(cfg: MonitorSetup, s: Cycle, event: Event, c: Circumstances): seq<Made> {
    var (runner, result) := Recovery(cfg.recovery, s.monitor.runner, CallFor(event, c));
    MadeWith(cfg, s, event, c, ChecksAsCandidate(cfg, s.monitor.runner, event, c), runner, result.executed)
  }

  function CallsFrom(cfg: MonitorSetup, s: Cycle, events: seq<Event>, cs: seq<Circumstances>): seq<Made>
    requires |events| == |cs|
    decreases |events|
  {
    if events == [] then []
    else
      var n := |events| - 1;
      CallsFrom(cfg, s, events[..n], cs[..n]) + MadeIn(cfg, TreatAll(cfg, s, events[..n], cs[..n]), events[n], cs[n])
  }

  function CallsOf(cfg: MonitorSetup, m: MonitorState, op: MonitorOp): seq<Made>
    requires op.Polls? ==> |op.events| == |op.cs|
  {
    if op.Polls? then CallsFrom(cfg, StartOf(m), op.events, op.cs) else []
  }

  /** The live applies of one step. */
  ghost function LivesOf(cfg: MonitorSetup, m: MonitorState, op: MonitorOp): nat
    requires PossibleOp(op)
  {
    if op.Polls? then CycleOf(cfg, m, op.events, op.cs).lives else 0
  }

  function Flat(parts: seq<seq<Made>>): seq<Made> {
    if parts == [] then [] else Flat(parts[..|parts| - 1]) + parts[|parts| - 1]
  }

  function Sum(xs: seq<nat>): nat {
    if xs == [] then 0 else Sum(xs[..|xs| - 1]) + xs[|xs| - 1]
  }

  /** A state before each step, and one after the last. */
  ghost predicate Steps(hs: seq<History>, ops: seq<MonitorOp>) {
    |hs| == |ops| + 1 && forall i | 0 <= i < |ops| :: PossibleOp(ops[i])
  }

  /** The calls of each step of a run. */
  ghost function CallsByStep(cfg: MonitorSetup, hs: seq<History>, ops: seq<MonitorOp>): seq<seq<Made>>
    requires Steps(hs, ops)
  {
    seq(|ops|, i requires 0 <= i < |ops| => CallsOf(cfg, hs[i].monitor, ops[i]))
  }

  /** The live applies of each step of a run. */
  ghost function LivesByStep(cfg: MonitorSetup, hs: seq<History>, ops: seq<MonitorOp>): seq<nat>
    requires Steps(hs, ops)
  {
    seq(|ops|, i requires 0 <= i < |ops| => LivesOf(cfg, hs[i].monitor, ops[i]))
  }

  ghost function CallsOfRun(cfg: MonitorSetup, hs: seq<History>, ops: seq<MonitorOp>): seq<Made>
    requires Steps(hs, ops)
  {
    Flat(CallsByStep(cfg, hs, ops))
  }

  ghost function LivesOfRun(cfg: MonitorSetup, hs: seq<History>, ops: seq<MonitorOp>): nat
    requires Steps(hs, ops)
  {
    Sum(LivesByStep(cfg, hs, ops))
  }

  ghost predicate AllGenuine(cfg: MonitorSetup, made: seq<Made>) {
    forall m | m in made :: Genuine(cfg, m)
  }

  /** The calls lead the runner from `first` to `last`, each finding it as the one before left it. */
  ghost predicate Chain(first: RunnerState, made: seq<Made>, last: RunnerState) {
    && (forall i, k | 0 <= i < k < |made| && k == i + 1 :: made[k].before == made[i].after)
    && (if made == [] then first == last else made[0].before == first && made[|made| - 1].after == last)
  }

  function Executed(made: seq<Made>): nat {
    if made == [] then 0 else Executed(made[..|made| - 1]) + if made[|made| - 1].executed then 1 else 0
  }

  lemma ChainAppends(a: RunnerState, first: seq<Made>, b: RunnerState, second: seq<Made>, c: RunnerState)
    requires Chain(a, first, b) && Chain(b, second, c)
    ensures Chain(a, first + second, c)
  {
  }

  lemma GenuineAppends(cfg: MonitorSetup, first: seq<Made>, second: seq<Made>)
    requires AllGenuine(cfg, first) && AllGenuine(cfg, second)
    ensures AllGenuine(cfg, first + second)
  {
  }

  lemma {:induction false} ExecutedAppends(first: seq<Made>, second: seq<Made>)
    ensures Executed(first + second) == Executed(first) + Executed(second)
    decreases |second|
  {
    if second == [] {
      assert first + second == first;
    } else {
      var n := |second| - 1;
      assert (first + second)[..|first| + n] == first + second[..n];
      ExecutedAppends(first, second[..n]);
    }
  }

  lemma TreatWithMakes(cfg: MonitorSetup, s: Cycle, event: Event, c: Circumstances, candidate: bool,
                       runner: RunnerState, executed: bool)
    ensures var s' := TreatWith(cfg, s, event, c, candidate, runner, executed);
      var made := MadeWith(cfg, s, event, c, candidate, runner, executed);
      && s'.monitor.runner == (if made == [] then s.monitor.runner else runner)
      && s'.lives == s.lives + (if made != [] && executed then 1 else 0)
  {
  }

  lemma IterationChains(cfg: MonitorSetup, s: Cycle, event: Event, c: Circumstances)
    ensures var s', made := TreatEvent(cfg, s, event, c), MadeIn(cfg, s, event, c);
      Chain(s.monitor.runner, made, s'.monitor.runner) && s'.lives == s.lives + Executed(made)
  {
    var (runner, result) := Recovery(cfg.recovery, s.monitor.runner, CallFor(event, c));
    TreatWithMakes(cfg, s, event, c, ChecksAsCandidate(cfg, s.monitor.runner, event, c), runner, result.executed);
    var made := MadeIn(cfg, s, event, c);
    assert made != [] ==> made[..0] == [];
  }

  lemma IterationIsGenuine(cfg: MonitorSetup, s: Cycle, event: Event, c: Circumstances)
    ensures AllGenuine(cfg, MadeIn(cfg, s, event, c))
  {
  }

  lemma {:induction false} CycleChains(cfg: MonitorSetup, s: Cycle, events: seq<Event>, cs: seq<Circumstances>)
    requires |events| == |cs|
    ensures var s', made := TreatAll(cfg, s, events, cs), CallsFrom(cfg, s, events, cs);
      Chain(s.monitor.runner, made, s'.monitor.runner) && s'.lives == s.lives + Executed(made)
    decreases |events|
  {
    if events != [] {
      var n := |events| - 1;
      var mid := TreatAll(cfg, s, events[..n], cs[..n]);
      CycleChains(cfg, s, events[..n], cs[..n]);
      IterationChains(cfg, mid, events[n], cs[n]);
      OneMore(s, CallsFrom(cfg, s, events[..n], cs[..n]), mid, MadeIn(cfg, mid, events[n], cs[n]),
              TreatEvent(cfg, mid, events[n], cs[n]));
    }
  }

  lemma {:induction false} CycleIsGenuine(cfg: MonitorSetup, s: Cycle, events: seq<Event>, cs: seq<Circumstances>)
    requires |events| == |cs|
    ensures AllGenuine(cfg, CallsFrom(cfg, s, events, cs))
    decreases |events|
  {
    if events != [] {
      var n := |events| - 1;
      var mid := TreatAll(cfg, s, events[..n], cs[..n]);
      CycleIsGenuine(cfg, s, events[..n], cs[..n]);
      IterationIsGenuine(cfg, mid, events[n], cs[n]);
      GenuineAppends(cfg, CallsFrom(cfg, s, events[..n], cs[..n]), MadeIn(cfg, mid, events[n], cs[n]));
    }
  }

  lemma OneMore(a: Cycle, first: seq<Made>, b: Cycle, second: seq<Made>, c: Cycle)
    requires Chain(a.monitor.runner, first, b.monitor.runner) && b.lives == a.lives + Executed(first)
    requires Chain(b.monitor.runner, second, c.monitor.runner) && c.lives == b.lives + Executed(second)
    ensures Chain(a.monitor.runner, first + second, c.monitor.runner)
    ensures c.lives == a.lives + Executed(first + second)
  {
    ChainAppends(a.monitor.runner, first, b.monitor.runner, second, c.monitor.runner);
    ExecutedAppends(first, second);
  }

  /** A run of one process: no step is a restart. */
  ghost predicate ProcessRun(cfg: MonitorSetup, hs: seq<History>, ops: seq<MonitorOp>) {
    HistoryRun(cfg, hs, ops) && forall op | op in ops :: PossibleOp(op) && op.Polls?
  }

  lemma StepChains(cfg: MonitorSetup, h: History, op: MonitorOp)
    requires PossibleOp(op) && op.Polls?
    ensures Chain(h.monitor.runner, CallsOf(cfg, h.monitor, op), OpStep(cfg, h, op).monitor.runner)
    ensures LivesOf(cfg, h.monitor, op) == Executed(CallsOf(cfg, h.monitor, op))
    ensures AllGenuine(cfg, CallsOf(cfg, h.monitor, op))
  {
    CycleChains(cfg, StartOf(h.monitor), op.events, op.cs);
    CycleIsGenuine(cfg, StartOf(h.monitor), op.events, op.cs);
    assert Summarize(cfg, CycleOf(cfg, h.monitor, op.events, op.cs)).0.runner ==
           CycleOf(cfg, h.monitor, op.events, op.cs).monitor.runner;
  }

  /** Steps that chain from state to state chain as a whole. */
  lemma {:induction false} FlatChains(runners: seq<RunnerState>, parts: seq<seq<Made>>, lives: seq<nat>)
    requires |runners| == |parts| + 1 && |lives| == |parts|
    requires forall i, k | 0 <= i < |parts| && k == i + 1 :: Chain(runners[i], parts[i], runners[k])
    requires forall i | 0 <= i < |parts| :: lives[i] == Executed(parts[i])
    ensures Chain(runners[0], Flat(parts), runners[|parts|]) && Sum(lives) == Executed(Flat(parts))
    decreases |parts|
  {
    if parts != [] {
      var n := |parts| - 1;
      FlatChains(runners[..|parts|], parts[..n], lives[..n]);
      ChainAppends(runners[0], Flat(parts[..n]), runners[n], parts[n], runners[|parts|]);
      ExecutedAppends(Flat(parts[..n]), parts[n]);
    }
  }

  lemma {:induction false} FlatGenuine(cfg: MonitorSetup, parts: seq<seq<Made>>)
    requires forall i | 0 <= i < |parts| :: AllGenuine(cfg, parts[i])
    ensures AllGenuine(cfg, Flat(parts))
    decreases |parts|
  {
    if parts != [] {
      FlatGenuine(cfg, parts[..|parts| - 1]);
      GenuineAppends(cfg, Flat(parts[..|parts| - 1]), parts[|parts| - 1]);
    }
  }

  lemma StepOfRun(cfg: MonitorSetup, hs: seq<History>, ops: seq<MonitorOp>, i: nat, k: nat)
    requires ProcessRun(cfg, hs, ops) && k == i + 1 <= |ops|
    ensures Steps(hs, ops)
    ensures Chain(hs[i].monitor.runner, CallsByStep(cfg, hs, ops)[i], hs[k].monitor.runner)
    ensures LivesByStep(cfg, hs, ops)[i] == Executed(CallsByStep(cfg, hs, ops)[i])
    ensures AllGenuine(cfg, CallsByStep(cfg, hs, ops)[i])
  {
    assert forall j | 0 <= j < |ops| :: ops[j] in ops;
    assert hs[i + 1] == OpStep(cfg, hs[i], ops[i]);
    StepChains(cfg, hs[i], ops[i]);
  }

  lemma ProcessSteps(cfg: MonitorSetup, hs: seq<History>, ops: seq<MonitorOp>)
    requires ProcessRun(cfg, hs, ops)
    ensures Steps(hs, ops)
  {
    assert forall j | 0 <= j < |ops| :: ops[j] in ops;
  }

  function Runners(hs: seq<History>): (runners: seq<RunnerState>)
    ensures |runners| == |hs| && forall i | 0 <= i < |hs| :: runners[i] == hs[i].monitor.runner
  {
    seq(|hs|, i requires 0 <= i < |hs| => hs[i].monitor.runner)
  }

  lemma RunChains(cfg: MonitorSetup, hs: seq<History>, ops: seq<MonitorOp>)
    requires ProcessRun(cfg, hs, ops)
    ensures Steps(hs, ops)
    ensures var made := CallsOfRun(cfg, hs, ops);
      && Chain(hs[0].monitor.runner, made, hs[|ops|].monitor.runner) && AllGenuine(cfg, made)
      && LivesOfRun(cfg, hs, ops) == Executed(made)
  {
    ProcessSteps(cfg, hs, ops);
    forall i, k | 0 <= i < |ops| && k == i + 1
      ensures Chain(Runners(hs)[i], CallsByStep(cfg, hs, ops)[i], Runners(hs)[k])
    {
      StepOfRun(cfg, hs, ops, i, k);
    }
    forall i | 0 <= i < |ops|
      ensures AllGenuine(cfg, CallsByStep(cfg, hs, ops)[i])
      ensures LivesByStep(cfg, hs, ops)[i] == Executed(CallsByStep(cfg, hs, ops)[i])
    {
      StepOfRun(cfg, hs, ops, i, i + 1);
    }
    FlatChains(Runners(hs), CallsByStep(cfg, hs, ops), LivesByStep(cfg, hs, ops));
    FlatGenuine(cfg, CallsByStep(cfg, hs, ops));
  }

  // ----- the spacing of the live applies -----

  /** The clock never goes back, within a call or from one call to the next. */
  ghost predicate Timely(made: seq<Made>) {
    && (forall m | m in made :: m.call.checkedAt <= m.call.reserveAt <= m.call.stampAt)
    && forall i, k | 0 <= i < k < |made| && k == i + 1 :: made[i].call.stampAt <= made[k].call.checkedAt
  }

  function Befores(made: seq<Made>): (states: seq<RunnerState>)
    ensures |states| == |made| && forall i | 0 <= i < |made| :: states[i] == made[i].before
  {
    seq(|made|, i requires 0 <= i < |made| => made[i].before)
  }

  function CallsAt(made: seq<Made>): (calls: seq<Call>)
    ensures |calls| == |made| && forall i | 0 <= i < |made| :: calls[i] == made[i].call
  {
    seq(|made|, i requires 0 <= i < |made| => made[i].call)
  }

  lemma ChainIsRecoveryRun(cfg: MonitorSetup, first: RunnerState, made: seq<Made>, last: RunnerState)
    requires Chain(first, made, last) && AllGenuine(cfg, made) && Timely(made)
    ensures RecoveryRun(cfg.recovery, Befores(made), CallsAt(made))
  {
    forall i, k | 0 <= i < k < |made| && k == i + 1
      ensures Precedes(cfg.recovery, Befores(made)[i], CallsAt(made)[i], Befores(made)[k], CallsAt(made)[k])
    {
      assert made[i] in made && Genuine(cfg, made[i]);
    }
    forall i | 0 <= i < |made| ensures made[i].call.checkedAt <= made[i].call.reserveAt <= made[i].call.stampAt {
      assert made[i] in made;
    }
  }

  /** The calls of all cycles of a process are a run of one runner. */
  lemma CyclesAreRecoveryRun(cfg: MonitorSetup, hs: seq<History>, ops: seq<MonitorOp>)
    requires ProcessRun(cfg, hs, ops) && Timely(CallsOfRun(cfg, hs, ops))
    ensures var made := CallsOfRun(cfg, hs, ops); RecoveryRun(cfg.recovery, Befores(made), CallsAt(made))
  {
    RunChains(cfg, hs, ops);
    ChainIsRecoveryRun(cfg, hs[0].monitor.runner, CallsOfRun(cfg, hs, ops), hs[|ops|].monitor.runner);
  }

  /** The places of the calls that executed. */
  function Places(made: seq<Made>): (places: seq<nat>)
    ensures |places| == Executed(made)
    ensures forall k | 0 <= k < |places| :: places[k] < |made| && made[places[k]].executed
    ensures forall k, l | 0 <= k < l < |places| :: places[k] < places[l]
  {
    if made == [] then []
    else
      var n := |made| - 1;
      Places(made[..n]) + if made[n].executed then [n] else []
  }

  function TurnFor(cfg: MonitorSetup, m: Made): Turn {
    Turn(m.before.cooldown, m.after.cooldown, KeysOf(m.call.event, cfg.recovery.project), m.executed,
         m.call.checkedAt, m.call.reserveAt, m.call.stampAt)
  }

  function TurnsFor(cfg: MonitorSetup, made: seq<Made>): (turns: seq<Turn>)
    ensures |turns| == |made| && forall i | 0 <= i < |made| :: turns[i] == TurnFor(cfg, made[i])
  {
    seq(|made|, i requires 0 <= i < |made| => TurnFor(cfg, made[i]))
  }

  lemma MadeIsLawful(cfg: MonitorSetup, m: Made)
    requires Genuine(cfg, m) && m.call.checkedAt <= m.call.reserveAt <= m.call.stampAt
    ensures Lawful(LimitsOf(cfg.recovery.project), TurnFor(cfg, m))
  {
    StampsIffExecuted(cfg.recovery, m.before, m.call);
  }

  lemma MadeIsTurnRun(cfg: MonitorSetup, first: RunnerState, made: seq<Made>, last: RunnerState)
    requires Chain(first, made, last) && AllGenuine(cfg, made) && Timely(made)
    ensures TurnRun(LimitsOf(cfg.recovery.project), TurnsFor(cfg, made))
  {
    forall i | 0 <= i < |made| ensures Lawful(LimitsOf(cfg.recovery.project), TurnsFor(cfg, made)[i]) {
      assert made[i] in made;
      MadeIsLawful(cfg, made[i]);
    }
  }

  /** The stamps of the calls that executed, in order. */
  function LiveStamps(made: seq<Made>): (stamps: seq<real>)
    ensures |stamps| == Executed(made)
    ensures forall k | 0 <= k < |stamps| :: stamps[k] == made[Places(made)[k]].call.stampAt
  {
    seq(|Places(made)|, k requires 0 <= k < |Places(made)| => made[Places(made)[k]].call.stampAt)
  }

  lemma LiveStampsSpaced(cfg: MonitorSetup, made: seq<Made>)
    requires TurnRun(LimitsOf(cfg.recovery.project), TurnsFor(cfg, made))
    ensures CooldownRuns.Spaced(LiveStamps(made), LimitsOf(cfg.recovery.project).projectSeconds)
  {
    forall k, l | 0 <= k < l < |LiveStamps(made)|
      ensures LiveStamps(made)[k] + LimitsOf(cfg.recovery.project).projectSeconds as real <= LiveStamps(made)[l]
    {
      TurnsAreSpaced(LimitsOf(cfg.recovery.project), TurnsFor(cfg, made), Places(made)[k], Places(made)[l],
                     ProjectScope);
    }
  }

  /**
   Over any run of cycles of one process: the live applies stamped between `a` and `b` are so few that the project's
   cooldown fits between any two of them.
   */
  lemma LivesInWindow(cfg: MonitorSetup, hs: seq<History>, ops: seq<MonitorOp>, a: real, b: real)
    requires ProcessRun(cfg, hs, ops) && Timely(CallsOfRun(cfg, hs, ops))
    requires forall m | m in CallsOfRun(cfg, hs, ops) && m.executed :: a <= m.call.stampAt <= b
    requires LivesOfRun(cfg, hs, ops) > 0
    ensures ((LivesOfRun(cfg, hs, ops) - 1) * LimitsOf(cfg.recovery.project).projectSeconds) as real <= b - a
  {
    var made := CallsOfRun(cfg, hs, ops);
    RunChains(cfg, hs, ops);
    MadeIsTurnRun(cfg, hs[0].monitor.runner, made, hs[|ops|].monitor.runner);
    LiveStampsSpaced(cfg, made);
    LiveStampsWithin(made, a, b);
    WindowHoldsFew(LiveStamps(made), LimitsOf(cfg.recovery.project).projectSeconds, a, b);
  }

  lemma LiveStampsWithin(made: seq<Made>, a: real, b: real)
    requires forall m | m in made && m.executed :: a <= m.call.stampAt <= b
    ensures forall t | t in LiveStamps(made) :: a <= t <= b
  {
    forall k | 0 <= k < |LiveStamps(made)| ensures a <= LiveStamps(made)[k] <= b {
      assert made[Places(made)[k]] in made;
    }
  }
}
