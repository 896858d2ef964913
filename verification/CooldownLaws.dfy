/** The cooldown laws in the project's own settings, for each of the three scopes. */
module CooldownLaws {
  import opened Wrappers
  import opened Projects
  import opened Cooldown
  import opened Runner
  import opened CooldownRuns
  import opened Monitor
  import opened MonitorRuns
  import opened CycleCalls

  /** The key was stamped at least so many seconds before, or never, or no cooldown is set. */
  predicate Elapsed(registry: map<string, real>, key: string, seconds: int, now: real) {
    key in registry && seconds > 0 ==> registry[key] + seconds as real <= now
  }

  /**
   A check allows exactly if no key is missing and each of the three times configured has elapsed since the stamp of
   its own key; and it names exactly the scopes that speak against it.
   */
  lemma CheckIff(r: Registries, project: Project, event: Event, now: real)
    ensures var result := Check(r, LimitsOf(project), KeysOf(event, project), now);
      && (result.allowed <==>
          && event.fingerprint != "" && event.eventType != "" && project.projectId != ""
          && Elapsed(r.fingerprint, event.fingerprint, project.policy.fingerprintSeconds, now)
          && Elapsed(r.eventType, event.eventType, project.policy.eventTypeSeconds, now)
          && Elapsed(r.project, project.projectId, project.policy.projectSeconds, now))
      && (FingerprintScope in result.blocked <==>
          event.fingerprint == ""
          || !Elapsed(r.fingerprint, event.fingerprint, project.policy.fingerprintSeconds, now))
      && (EventTypeScope in result.blocked <==>
          event.eventType == ""
          || !Elapsed(r.eventType, event.eventType, project.policy.eventTypeSeconds, now))
      && (ProjectScope in result.blocked <==>
          project.projectId == "" || !Elapsed(r.project, project.projectId, project.policy.projectSeconds, now))
      && !result.reserved
  {
  }

  /** A reservation stamps the three keys of the event, each in its own registry, and no other key. */
  lemma ReserveStamps(r: Registries, project: Project, event: Event, checkedAt: real, stamp: real)
    ensures var (after, result) := Reserve(r, LimitsOf(project), KeysOf(event, project), checkedAt, stamp);
      && result.allowed == result.reserved == Check(r, LimitsOf(project), KeysOf(event, project), checkedAt).allowed
      && (!result.reserved ==> after == r)
      && (result.reserved ==>
          && after.fingerprint == r.fingerprint[event.fingerprint := stamp]
          && after.eventType == r.eventType[event.eventType := stamp]
          && after.project == r.project[project.projectId := stamp])
  {
  }

  /** What three cooldowns ask of two applications, in the project's settings. */
  lemma TurnsApart(project: Project, turns: seq<Turn>, j: nat, i: nat)
    requires TurnRun(LimitsOf(project), turns) && j < i < |turns| && turns[j].executed && turns[i].executed
    ensures turns[j].keys.projectId == turns[i].keys.projectId ==>
      turns[j].stampAt + project.policy.projectSeconds as real <= turns[i].stampAt
    ensures turns[j].keys.eventType == turns[i].keys.eventType ==>
      turns[j].stampAt + project.policy.eventTypeSeconds as real <= turns[i].stampAt
    ensures turns[j].keys.fingerprint == turns[i].keys.fingerprint ==>
      turns[j].stampAt + project.policy.fingerprintSeconds as real <= turns[i].stampAt
  {
    if turns[j].keys.projectId == turns[i].keys.projectId {
      TurnsAreSpaced(LimitsOf(project), turns, j, i, ProjectScope);
    }
    if turns[j].keys.eventType == turns[i].keys.eventType {
      TurnsAreSpaced(LimitsOf(project), turns, j, i, EventTypeScope);
    }
    if turns[j].keys.fingerprint == turns[i].keys.fingerprint {
      TurnsAreSpaced(LimitsOf(project), turns, j, i, FingerprintScope);
    }
  }

  /**
   Two live applies of one runner: of one fingerprint, of one event type, and in any case of the project, they are
   at least the time configured for that apart.
   */
  lemma AppliesApart(cfg: Setup, pre: seq<RunnerState>, calls: seq<Call>, j: nat, i: nat)
    requires RecoveryRun(cfg, pre, calls) && j < i < |calls|
    requires Executes(cfg, pre, calls, j) && Executes(cfg, pre, calls, i)
    ensures calls[j].stampAt + cfg.project.policy.projectSeconds as real <= calls[i].stampAt
    ensures calls[j].event.eventType == calls[i].event.eventType ==>
      calls[j].stampAt + cfg.project.policy.eventTypeSeconds as real <= calls[i].stampAt
    ensures calls[j].event.fingerprint == calls[i].event.fingerprint ==>
      calls[j].stampAt + cfg.project.policy.fingerprintSeconds as real <= calls[i].stampAt
  {
    TurnsRun(cfg, pre, calls);
    TurnsApart(cfg.project, TurnsOf(cfg, pre, calls), j, i);
  }

  // ----- how many fit into a window -----

  /** Calls that executed, in their order, stamped within the window from `a` to `b`. */
  ghost predicate LiveWithin(cfg: Setup, pre: seq<RunnerState>, calls: seq<Call>, picks: seq<nat>, a: real, b: real) {
    && |pre| == |calls| && picks != []
    && (forall k | 0 <= k < |picks| :: picks[k] < |calls| && Executes(cfg, pre, calls, picks[k]))
    && (forall k | 0 <= k < |picks| :: picks[k] < |calls| && a <= calls[picks[k]].stampAt <= b)
    && (forall k, l | 0 <= k < l < |picks| :: picks[k] < picks[l])
  }

  /** Stamps that are so far apart, within a window: the window holds one distance less than there are stamps. */
  lemma WindowHolds(stamps: seq<real>, seconds: int, a: real, b: real)
    requires stamps != [] && forall t | t in stamps :: a <= t <= b
    requires forall k, l | 0 <= k < l < |stamps| :: stamps[k] + seconds as real <= stamps[l]
    ensures ((|stamps| - 1) * seconds) as real <= b - a
  {
    if seconds >= 0 {
      WindowHoldsFew(stamps, seconds, a, b);
    } else {
      assert stamps[0] in stamps;
      assert (|stamps| - 1) * seconds <= 0;
    }
  }

  /** The same of turns. */
  ghost predicate LiveTurns(turns: seq<Turn>, picks: seq<nat>, a: real, b: real) {
    && picks != []
    && (forall k | 0 <= k < |picks| ::
        picks[k] < |turns| && turns[picks[k]].executed && a <= turns[picks[k]].stampAt <= b)
    && (forall k, l | 0 <= k < l < |picks| :: picks[k] < picks[l])
  }

  lemma LiveCallsAreTurns(cfg: Setup, pre: seq<RunnerState>, calls: seq<Call>, picks: seq<nat>, a: real, b: real)
    requires LiveWithin(cfg, pre, calls, picks, a, b)
    ensures LiveTurns(TurnsOf(cfg, pre, calls), picks, a, b)
    ensures forall k | 0 <= k < |picks| ::
      TurnsOf(cfg, pre, calls)[picks[k]].keys == KeysOf(calls[picks[k]].event, cfg.project)
  {
  }

  /** The stamps of the picked turns. */
  function StampsAt(turns: seq<Turn>, picks: seq<nat>): (stamps: seq<real>)
    requires forall k | 0 <= k < |picks| :: picks[k] < |turns|
    ensures |stamps| == |picks| && forall k | 0 <= k < |picks| :: stamps[k] == turns[picks[k]].stampAt
  {
    seq(|picks|, k requires 0 <= k < |picks| => turns[picks[k]].stampAt)
  }

  lemma ProjectTurns(project: Project, turns: seq<Turn>, picks: seq<nat>, a: real, b: real)
    requires TurnRun(LimitsOf(project), turns) && LiveTurns(turns, picks, a, b)
    requires forall k, l | 0 <= k < l < |picks| :: turns[picks[k]].keys.projectId == turns[picks[l]].keys.projectId
    ensures ((|picks| - 1) * project.policy.projectSeconds) as real <= b - a
  {
    forall k, l | 0 <= k < l < |picks|
      ensures StampsAt(turns, picks)[k] + project.policy.projectSeconds as real <= StampsAt(turns, picks)[l]
    {
      TurnsApart(project, turns, picks[k], picks[l]);
    }
    WindowHolds(StampsAt(turns, picks), project.policy.projectSeconds, a, b);
  }

  lemma EventTypeTurns(project: Project, turns: seq<Turn>, picks: seq<nat>, a: real, b: real)
    requires TurnRun(LimitsOf(project), turns) && LiveTurns(turns, picks, a, b)
    requires forall k, l | 0 <= k < l < |picks| :: turns[picks[k]].keys.eventType == turns[picks[l]].keys.eventType
    ensures ((|picks| - 1) * project.policy.eventTypeSeconds) as real <= b - a
  {
    forall k, l | 0 <= k < l < |picks|
      ensures StampsAt(turns, picks)[k] + project.policy.eventTypeSeconds as real <= StampsAt(turns, picks)[l]
    {
      TurnsApart(project, turns, picks[k], picks[l]);
    }
    WindowHolds(StampsAt(turns, picks), project.policy.eventTypeSeconds, a, b);
  }

  lemma FingerprintTurns(project: Project, turns: seq<Turn>, picks: seq<nat>, a: real, b: real)
    requires TurnRun(LimitsOf(project), turns) && LiveTurns(turns, picks, a, b)
    requires forall k, l | 0 <= k < l < |picks| :: turns[picks[k]].keys.fingerprint == turns[picks[l]].keys.fingerprint
    ensures ((|picks| - 1) * project.policy.fingerprintSeconds) as real <= b - a
  {
    forall k, l | 0 <= k < l < |picks|
      ensures StampsAt(turns, picks)[k] + project.policy.fingerprintSeconds as real <= StampsAt(turns, picks)[l]
    {
      TurnsApart(project, turns, picks[k], picks[l]);
    }
    WindowHolds(StampsAt(turns, picks), project.policy.fingerprintSeconds, a, b);
  }

  /** Live applies stamped within a window are so few that the project's time fits between any two of them. */
  lemma ProjectWindow(cfg: Setup, pre: seq<RunnerState>, calls: seq<Call>, picks: seq<nat>, a: real, b: real)
    requires RecoveryRun(cfg, pre, calls) && LiveWithin(cfg, pre, calls, picks, a, b)
    ensures ((|picks| - 1) * cfg.project.policy.projectSeconds) as real <= b - a
  {
    TurnsRun(cfg, pre, calls);
    LiveCallsAreTurns(cfg, pre, calls, picks, a, b);
    ProjectTurns(cfg.project, TurnsOf(cfg, pre, calls), picks, a, b);
  }

  /** And those for one event type keep the time for event types. */
  lemma EventTypeWindow(cfg: Setup, pre: seq<RunnerState>, calls: seq<Call>, picks: seq<nat>, eventType: string,
                        a: real, b: real)
    requires RecoveryRun(cfg, pre, calls) && LiveWithin(cfg, pre, calls, picks, a, b)
    requires forall k | 0 <= k < |picks| :: calls[picks[k]].event.eventType == eventType
    ensures ((|picks| - 1) * cfg.project.policy.eventTypeSeconds) as real <= b - a
  {
    TurnsRun(cfg, pre, calls);
    LiveCallsAreTurns(cfg, pre, calls, picks, a, b);
    EventTypeTurns(cfg.project, TurnsOf(cfg, pre, calls), picks, a, b);
  }

  /** And those for one fingerprint the time for fingerprints. */
  lemma FingerprintWindow(cfg: Setup, pre: seq<RunnerState>, calls: seq<Call>, picks: seq<nat>, fingerprint: string,
                          a: real, b: real)
    requires RecoveryRun(cfg, pre, calls) && LiveWithin(cfg, pre, calls, picks, a, b)
    requires forall k | 0 <= k < |picks| :: calls[picks[k]].event.fingerprint == fingerprint
    ensures ((|picks| - 1) * cfg.project.policy.fingerprintSeconds) as real <= b - a
  {
    TurnsRun(cfg, pre, calls);
    LiveCallsAreTurns(cfg, pre, calls, picks, a, b);
    FingerprintTurns(cfg.project, TurnsOf(cfg, pre, calls), picks, a, b);
  }

  lemma LiveStampsApart(project: Project, cfg: MonitorSetup, made: seq<Made>)
    requires cfg.recovery.project == project && TurnRun(LimitsOf(project), TurnsFor(cfg, made))
    ensures forall k, l | 0 <= k < l < |LiveStamps(made)| ::
      LiveStamps(made)[k] + project.policy.projectSeconds as real <= LiveStamps(made)[l]
  {
    forall k, l | 0 <= k < l < |LiveStamps(made)|
      ensures LiveStamps(made)[k] + project.policy.projectSeconds as real <= LiveStamps(made)[l]
    {
      TurnsApart(project, TurnsFor(cfg, made), Places(made)[k], Places(made)[l]);
    }
  }

  /** All the cycles of one process: of their live applies too no two are closer than the project's time. */
  lemma LivesAsConfigured(cfg: MonitorSetup, hs: seq<History>, ops: seq<MonitorOp>, a: real, b: real)
    requires ProcessRun(cfg, hs, ops) && Timely(CallsOfRun(cfg, hs, ops))
    requires forall m | m in CallsOfRun(cfg, hs, ops) && m.executed :: a <= m.call.stampAt <= b
    requires LivesOfRun(cfg, hs, ops) > 0
    ensures ((LivesOfRun(cfg, hs, ops) - 1) * cfg.recovery.project.policy.projectSeconds) as real <= b - a
  {
    var made := CallsOfRun(cfg, hs, ops);
    RunChains(cfg, hs, ops);
    MadeIsTurnRun(cfg, hs[0].monitor.runner, made, hs[|ops|].monitor.runner);
    LiveStampsApart(cfg.recovery.project, cfg, made);
    LiveStampsWithin(made, a, b);
    WindowHolds(LiveStamps(made), cfg.recovery.project.policy.projectSeconds, a, b);
  }

  // ----- several runners -----

  /** Two live applies closer than the project asks have a change of runner in between. */
  lemma CloserNeedsRenewal(cfg: Setup, pre: seq<RunnerState>, calls: seq<Call>, renewed: seq<bool>, j: nat, i: nat)
    requires RunnersRun(cfg, pre, calls, renewed) && j < i < |calls|
    requires Executes(cfg, pre, calls, j) && Executes(cfg, pre, calls, i)
    requires calls[i].stampAt < calls[j].stampAt + cfg.project.policy.projectSeconds as real
    ensures exists k | j < k <= i :: renewed[k]
  {
    RunnersTurns(cfg, pre, calls, renewed);
    CloserTurns(cfg.project, TurnsOf(cfg, pre, calls), renewed, j, i);
  }

  lemma CloserTurns(project: Project, turns: seq<Turn>, renewed: seq<bool>, j: nat, i: nat)
    requires TurnsOfRunners(LimitsOf(project), turns, renewed) && j < i < |turns|
    requires turns[j].executed && turns[i].executed && turns[j].keys.projectId == turns[i].keys.projectId
    requires turns[i].stampAt < turns[j].stampAt + project.policy.projectSeconds as real
    ensures exists k | j < k <= i :: renewed[k]
  {
    CloseTurnsNeedRenewal(LimitsOf(project), turns, renewed, j, i, ProjectScope);
  }

  /** An immediate repetition is not held back by the runner exactly if the project configures no cooldown at all. */
  lemma NoCooldownIff(project: Project)
    ensures NoCooldown(LimitsOf(project)) <==>
      project.policy.fingerprintSeconds <= 0 && project.policy.eventTypeSeconds <= 0
      && project.policy.projectSeconds <= 0
  {
  }
}
