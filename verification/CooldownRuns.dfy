/** The spacing of live applies over any run of recovery calls. */
module CooldownRuns {
  import opened Wrappers
  import opened Projects
  import opened Cooldown
  import opened Gate
  import opened GateTheorems
  import opened Runner
  import opened RunnerTheorems

  function RegistryOf(r: Registries, scope: Scope): map<string, real> {
    match scope
    case FingerprintScope => r.fingerprint
    case EventTypeScope => r.eventType
    case ProjectScope => r.project
  }

  function KeyOf(keys: Keys, scope: Scope): string {
    match scope
    case FingerprintScope => keys.fingerprint
    case EventTypeScope => keys.eventType
    case ProjectScope => keys.projectId
  }

  function SecondsOf(limits: Limits, scope: Scope): nat {
    match scope
    case FingerprintScope => limits.fingerprintSeconds
    case EventTypeScope => limits.eventTypeSeconds
    case ProjectScope => limits.projectSeconds
  }

  lemma AllowedInEveryScope(r: Registries, limits: Limits, keys: Keys, now: real, scope: Scope)
    requires Check(r, limits, keys, now).allowed
    ensures ScopeAllows(RegistryOf(r, scope), KeyOf(keys, scope), SecondsOf(limits, scope), now)
  {
  }

  /**
   A run of calls of one runner: the registries are the runner's own, so each call finds them as the last one
   left them, while files and approvals may change between calls in any way. The clock never goes back.
   */
  ghost predicate RecoveryRun(cfg: Setup, pre: seq<RunnerState>, calls: seq<Call>) {
    && |pre| == |calls|
    && (forall i | 0 <= i < |calls| :: calls[i].checkedAt <= calls[i].reserveAt <= calls[i].stampAt)
    && (forall i, k | 0 <= i < k < |calls| && k == i + 1 :: Precedes(cfg, pre[i], calls[i], pre[k], calls[k]))
  }

  /** The next call comes later and finds the registries that the call before it left. */
  predicate Precedes(cfg: Setup, st: RunnerState, call: Call, next: RunnerState, nextCall: Call) {
    next.cooldown == Recovery(cfg, st, call).0.cooldown && call.stampAt <= nextCall.checkedAt
  }

  predicate Executes(cfg: Setup, pre: seq<RunnerState>, calls: seq<Call>, i: nat)
    requires i < |calls| == |pre|
  {
    Recovery(cfg, pre[i], calls[i]).1.executed
  }

  function KeyAt(cfg: Setup, calls: seq<Call>, i: nat, scope: Scope): string
    requires i < |calls|
  {
    KeyOf(KeysOf(calls[i].event, cfg.project), scope)
  }

  /** A call that executes stamps all three registries; a call that does not, for whatever reason, stamps none. */
  lemma StampsIffExecuted(cfg: Setup, st: RunnerState, call: Call)
    ensures var (after, result) := Recovery(cfg, st, call);
      var keys := KeysOf(call.event, cfg.project);
      && (result.executed ==> after.cooldown == Stamped(st.cooldown, keys, call.stampAt))
      && (result.executed ==> Check(st.cooldown, LimitsOf(cfg.project), keys, call.reserveAt).allowed)
      && (!result.executed ==> after.cooldown == st.cooldown)
  {
    RecoveryCases(cfg, st, call);
    FreshGateIsAuthorized(cfg, st.cooldown, call);
    DecideFromKeeps(cfg, st.cooldown, st.log, call, FreshGate(cfg, st.cooldown, call));
  }

  /** The key carries this stamp or a later one, none in the future. */
  predicate Remembers(r: Registries, scope: Scope, key: string, stamp: real, now: real) {
    key in RegistryOf(r, scope) && stamp <= RegistryOf(r, scope)[key] <= now
  }

  lemma StampRemembers(r: Registries, keys: Keys, scope: Scope, stamp: real, now: real)
    requires stamp <= now
    ensures Remembers(Stamped(r, keys, stamp), scope, KeyOf(keys, scope), stamp, now)
  {
  }

  lemma StampKeepsMemory(r: Registries, keys: Keys, scope: Scope, key: string, stamp: real, now: real, later: real,
                         next: real)
    requires Remembers(r, scope, key, stamp, now) && now <= later <= next
    ensures Remembers(Stamped(r, keys, later), scope, key, stamp, next)
  {
  }

  // What a call means for the cooldowns, without the rest of it.

  datatype Turn = Turn(before: Registries, after: Registries, keys: Keys, executed: bool,
                       checkedAt: real, reserveAt: real, stampAt: real)

  function TurnOf(cfg: Setup, st: RunnerState, call: Call): Turn {
    var (after, result) := Recovery(cfg, st, call);
    Turn(st.cooldown, after.cooldown, KeysOf(call.event, cfg.project), result.executed,
         call.checkedAt, call.reserveAt, call.stampAt)
  }

  predicate Lawful(limits: Limits, t: Turn) {
    && t.checkedAt <= t.reserveAt <= t.stampAt
    && t.after == (if t.executed then Stamped(t.before, t.keys, t.stampAt) else t.before)
    && (t.executed ==> Check(t.before, limits, t.keys, t.reserveAt).allowed)
  }

  ghost predicate TurnRun(limits: Limits, turns: seq<Turn>) {
    && (forall t | t in turns :: Lawful(limits, t))
    && (forall i, k | 0 <= i < k < |turns| && k == i + 1 ::
        turns[k].before == turns[i].after && turns[i].stampAt <= turns[k].checkedAt)
  }

  lemma {:induction false} StampStays(limits: Limits, turns: seq<Turn>, j: nat, i: nat, scope: Scope)
    requires TurnRun(limits, turns) && j < i < |turns| && turns[j].executed
    ensures Remembers(turns[i].before, scope, KeyOf(turns[j].keys, scope), turns[j].stampAt, turns[i].checkedAt)
    decreases i
  {
    var t := turns[i - 1];
    assert Lawful(limits, t) && turns[i].before == t.after;
    if j == i - 1 {
      StampRemembers(t.before, t.keys, scope, t.stampAt, turns[i].checkedAt);
    } else {
      StampStays(limits, turns, j, i - 1, scope);
      if t.executed {
        StampKeepsMemory(t.before, t.keys, scope, KeyOf(turns[j].keys, scope), turns[j].stampAt, t.checkedAt,
                         t.stampAt, turns[i].checkedAt);
      }
    }
  }

  lemma TurnsAreSpaced(limits: Limits, turns: seq<Turn>, j: nat, i: nat, scope: Scope)
    requires TurnRun(limits, turns) && j < i < |turns| && turns[j].executed && turns[i].executed
    requires KeyOf(turns[j].keys, scope) == KeyOf(turns[i].keys, scope)
    ensures turns[j].stampAt + SecondsOf(limits, scope) as real <= turns[i].stampAt
  {
    StampStays(limits, turns, j, i, scope);
    var t := turns[i];
    assert Lawful(limits, t);
    AllowedInEveryScope(t.before, limits, t.keys, t.reserveAt, scope);
    AllowedAfterMemory(RegistryOf(t.before, scope), KeyOf(t.keys, scope), SecondsOf(limits, scope), t.reserveAt,
                       turns[j].stampAt);
  }

  function TurnsOf(cfg: Setup, pre: seq<RunnerState>, calls: seq<Call>): (turns: seq<Turn>)
    requires |pre| == |calls|
    ensures |turns| == |calls|
  {
    seq(|calls|, i requires 0 <= i < |calls| => TurnOf(cfg, pre[i], calls[i]))
  }

  lemma TurnIsLawful(cfg: Setup, st: RunnerState, call: Call)
    requires call.checkedAt <= call.reserveAt <= call.stampAt
    ensures Lawful(LimitsOf(cfg.project), TurnOf(cfg, st, call))
  {
    StampsIffExecuted(cfg, st, call);
  }

  lemma TurnsRun(cfg: Setup, pre: seq<RunnerState>, calls: seq<Call>)
    requires RecoveryRun(cfg, pre, calls)
    ensures TurnRun(LimitsOf(cfg.project), TurnsOf(cfg, pre, calls))
  {
    var turns := TurnsOf(cfg, pre, calls);
    forall t | t in turns ensures Lawful(LimitsOf(cfg.project), t) {
      var i :| 0 <= i < |turns| && turns[i] == t;
      TurnIsLawful(cfg, pre[i], calls[i]);
    }
    forall i, k | 0 <= i < k < |turns| && k == i + 1
      ensures turns[k].before == turns[i].after && turns[i].stampAt <= turns[k].checkedAt
    {
      assert Precedes(cfg, pre[i], calls[i], pre[k], calls[k]);
    }
  }

  /** Before every later call, the keys of an execution carry its stamp or a later one, none in the future. */
  lemma ExecutionRemembered(cfg: Setup, pre: seq<RunnerState>, calls: seq<Call>, j: nat, i: nat, scope: Scope)
    requires RecoveryRun(cfg, pre, calls) && j < i < |calls| && Executes(cfg, pre, calls, j)
    ensures Remembers(pre[i].cooldown, scope, KeyAt(cfg, calls, j, scope), calls[j].stampAt, calls[i].checkedAt)
  {
    TurnsRun(cfg, pre, calls);
    StampStays(LimitsOf(cfg.project), TurnsOf(cfg, pre, calls), j, i, scope);
  }

  lemma AllowedAfterMemory(registry: map<string, real>, key: string, seconds: nat, now: real, stamp: real)
    requires ScopeAllows(registry, key, seconds, now) && key in registry && stamp <= registry[key] <= now
    ensures stamp + seconds as real <= now
  {
  }

  /**
   Two live applies of one project, of one event type or of one fingerprint are at least the cooldown of that
   scope apart.
   */
  lemma AppliesAreSpaced(cfg: Setup, pre: seq<RunnerState>, calls: seq<Call>, j: nat, i: nat, scope: Scope)
    requires RecoveryRun(cfg, pre, calls) && j < i < |calls|
    requires Executes(cfg, pre, calls, j) && Executes(cfg, pre, calls, i)
    requires KeyAt(cfg, calls, j, scope) == KeyAt(cfg, calls, i, scope)
    ensures calls[j].stampAt + SecondsOf(LimitsOf(cfg.project), scope) as real <= calls[i].stampAt
  {
    TurnsRun(cfg, pre, calls);
    TurnsAreSpaced(LimitsOf(cfg.project), TurnsOf(cfg, pre, calls), j, i, scope);
  }

  /** Positions of executions that share their key, in order. */
  ghost predicate Picks(cfg: Setup, pre: seq<RunnerState>, calls: seq<Call>, picks: seq<nat>, scope: Scope) {
    && |pre| == |calls|
    && (forall k | 0 <= k < |picks| :: picks[k] < |calls| && Executes(cfg, pre, calls, picks[k]))
    && (forall k, l | 0 <= k < l < |picks| ::
        picks[k] < picks[l] && KeyAt(cfg, calls, picks[k], scope) == KeyAt(cfg, calls, picks[l], scope))
  }

  /** Any two stamps, in order, are at least `seconds` apart. */
  predicate Spaced(stamps: seq<real>, seconds: nat) {
    forall k, l | 0 <= k < l < |stamps| :: stamps[k] + seconds as real <= stamps[l]
  }

  lemma {:induction false} SpacedStamps(stamps: seq<real>, seconds: nat)
    requires stamps != [] && Spaced(stamps, seconds)
    ensures stamps[0] + ((|stamps| - 1) * seconds) as real <= stamps[|stamps| - 1]
    decreases |stamps|
  {
    if |stamps| > 1 {
      var n := |stamps| - 1;
      SpacedStamps(stamps[..n], seconds);
      assert stamps[n - 1] + seconds as real <= stamps[n];
      assert n * seconds == (n - 1) * seconds + seconds;
    }
  }

  /** The picked calls stamp the registries within the window. */
  predicate StampedWithin(calls: seq<Call>, picks: seq<nat>, a: real, b: real) {
    forall k | 0 <= k < |picks| :: picks[k] < |calls| && a <= calls[picks[k]].stampAt <= b
  }

  /** Spaced stamps within the window from `a` to `b` need a window of one cooldown less than there are stamps. */
  lemma WindowHoldsFew(stamps: seq<real>, seconds: nat, a: real, b: real)
    requires stamps != [] && Spaced(stamps, seconds) && forall t | t in stamps :: a <= t <= b
    ensures ((|stamps| - 1) * seconds) as real <= b - a
  {
    SpacedStamps(stamps, seconds);
    assert stamps[0] in stamps && stamps[|stamps| - 1] in stamps;
  }

  /**
   So `n` live applies of one project, event type or fingerprint, stamped within the window from `a` to `b`, need
   a window of at least `n - 1` cooldowns.
   */
  lemma AppliesInWindow(cfg: Setup, pre: seq<RunnerState>, calls: seq<Call>, picks: seq<nat>, scope: Scope, a: real,
                        b: real)
    requires RecoveryRun(cfg, pre, calls) && Picks(cfg, pre, calls, picks, scope) && picks != []
    requires StampedWithin(calls, picks, a, b)
    ensures ((|picks| - 1) * SecondsOf(LimitsOf(cfg.project), scope)) as real <= b - a
  {
    TurnsRun(cfg, pre, calls);
    PicksAreTurnPicks(cfg, pre, calls, picks, scope, a, b);
    TurnsInWindow(LimitsOf(cfg.project), TurnsOf(cfg, pre, calls), picks, scope, a, b);
  }

  /** Turns that executed and share their key, in order, stamped within the window. */
  ghost predicate TurnPicks(turns: seq<Turn>, picks: seq<nat>, scope: Scope, a: real, b: real) {
    && (forall k | 0 <= k < |picks| ::
        picks[k] < |turns| && turns[picks[k]].executed && a <= turns[picks[k]].stampAt <= b)
    && (forall k, l | 0 <= k < l < |picks| ::
        picks[k] < picks[l] && KeyOf(turns[picks[k]].keys, scope) == KeyOf(turns[picks[l]].keys, scope))
  }

  lemma PicksAreTurnPicks(cfg: Setup, pre: seq<RunnerState>, calls: seq<Call>, picks: seq<nat>, scope: Scope, a: real,
                          b: real)
    requires Picks(cfg, pre, calls, picks, scope) && StampedWithin(calls, picks, a, b)
    ensures TurnPicks(TurnsOf(cfg, pre, calls), picks, scope, a, b)
  {
    var turns := TurnsOf(cfg, pre, calls);
    forall k | 0 <= k < |picks| ensures turns[picks[k]].executed && a <= turns[picks[k]].stampAt <= b {
      TurnAt(cfg, pre, calls, picks[k], scope);
    }
    forall k, l | 0 <= k < l < |picks|
      ensures KeyOf(turns[picks[k]].keys, scope) == KeyOf(turns[picks[l]].keys, scope)
    {
      TurnAt(cfg, pre, calls, picks[k], scope);
      TurnAt(cfg, pre, calls, picks[l], scope);
    }
  }

  lemma TurnAt(cfg: Setup, pre: seq<RunnerState>, calls: seq<Call>, i: nat, scope: Scope)
    requires i < |calls| == |pre|
    ensures var turn := TurnsOf(cfg, pre, calls)[i];
      && turn.executed == Executes(cfg, pre, calls, i) && turn.stampAt == calls[i].stampAt
      && KeyOf(turn.keys, scope) == KeyAt(cfg, calls, i, scope)
  {
  }

  lemma TurnsInWindow(limits: Limits, turns: seq<Turn>, picks: seq<nat>, scope: Scope, a: real, b: real)
    requires TurnRun(limits, turns) && TurnPicks(turns, picks, scope, a, b) && picks != []
    ensures ((|picks| - 1) * SecondsOf(limits, scope)) as real <= b - a
  {
    var stamps := seq(|picks|, k requires 0 <= k < |picks| => turns[picks[k]].stampAt);
    forall k, l | 0 <= k < l < |stamps| ensures stamps[k] + SecondsOf(limits, scope) as real <= stamps[l] {
      TurnsAreSpaced(limits, turns, picks[k], picks[l], scope);
    }
    WindowHoldsFew(stamps, SecondsOf(limits, scope), a, b);
  }

  // ----- several runners for one project -----

  /** What a new runner remembers: every runner keeps registries of its own, and none of them outlives it. */
  const NOTHING := Registries(map[], map[], map[])

  /** A run of calls in which a new runner may take over before any call. */
  ghost predicate RunnersRun(cfg: Setup, pre: seq<RunnerState>, calls: seq<Call>, renewed: seq<bool>) {
    && |pre| == |calls| == |renewed|
    && (forall i | 0 <= i < |calls| :: calls[i].checkedAt <= calls[i].reserveAt <= calls[i].stampAt)
    && (forall i, k | 0 <= i < k < |calls| && k == i + 1 ::
        if renewed[k] then Renewed(calls[i], pre[k], calls[k]) else Precedes(cfg, pre[i], calls[i], pre[k], calls[k]))
  }

  /** The next call comes later and is made by a new runner. */
  predicate Renewed(call: Call, next: RunnerState, nextCall: Call) {
    next.cooldown == NOTHING && call.stampAt <= nextCall.checkedAt
  }

  ghost predicate TurnsOfRunners(limits: Limits, turns: seq<Turn>, renewed: seq<bool>) {
    && |turns| == |renewed|
    && (forall t | t in turns :: Lawful(limits, t))
    && (forall i, k | 0 <= i < k < |turns| && k == i + 1 ::
        (renewed[k] || turns[k].before == turns[i].after) && turns[i].stampAt <= turns[k].checkedAt)
  }

  lemma RunnersTurns(cfg: Setup, pre: seq<RunnerState>, calls: seq<Call>, renewed: seq<bool>)
    requires RunnersRun(cfg, pre, calls, renewed)
    ensures TurnsOfRunners(LimitsOf(cfg.project), TurnsOf(cfg, pre, calls), renewed)
  {
    var turns := TurnsOf(cfg, pre, calls);
    forall t | t in turns ensures Lawful(LimitsOf(cfg.project), t) {
      var i :| 0 <= i < |turns| && turns[i] == t;
      TurnIsLawful(cfg, pre[i], calls[i]);
    }
    forall i, k | 0 <= i < k < |turns| && k == i + 1
      ensures (renewed[k] || turns[k].before == turns[i].after) && turns[i].stampAt <= turns[k].checkedAt
    {
      assert renewed[k] || Precedes(cfg, pre[i], calls[i], pre[k], calls[k]);
    }
  }

  lemma CloseTurnsNeedRenewal(limits: Limits, turns: seq<Turn>, renewed: seq<bool>, j: nat, i: nat, scope: Scope)
    requires TurnsOfRunners(limits, turns, renewed) && j < i < |turns| && turns[j].executed && turns[i].executed
    requires KeyOf(turns[j].keys, scope) == KeyOf(turns[i].keys, scope)
    requires turns[i].stampAt < turns[j].stampAt + SecondsOf(limits, scope) as real
    ensures exists k | j < k <= i :: renewed[k]
  {
    if forall k | j < k <= i :: !renewed[k] {
      TurnsAreSpaced(limits, turns[j..i + 1], 0, i - j, scope);
    }
  }

  /** Two live applies of one key closer than its cooldown happen only when a new runner took over in between. */
  lemma CloseAppliesNeedRenewal(cfg: Setup, pre: seq<RunnerState>, calls: seq<Call>, renewed: seq<bool>, j: nat, i: nat,
                                scope: Scope)
    requires RunnersRun(cfg, pre, calls, renewed) && j < i < |calls|
    requires Executes(cfg, pre, calls, j) && Executes(cfg, pre, calls, i)
    requires KeyAt(cfg, calls, j, scope) == KeyAt(cfg, calls, i, scope)
    requires calls[i].stampAt < calls[j].stampAt + SecondsOf(LimitsOf(cfg.project), scope) as real
    ensures exists k | j < k <= i :: renewed[k]
  {
    RunnersTurns(cfg, pre, calls, renewed);
    CloseTurnsNeedRenewal(LimitsOf(cfg.project), TurnsOf(cfg, pre, calls), renewed, j, i, scope);
  }

  /** The same call, made at once after time `t`. */
  function Again(call: Call, t: real): Call {
    call.(checkedAt := t, reserveAt := t, stampAt := t)
  }

  predicate NoCooldown(limits: Limits) {
    limits.fingerprintSeconds == 0 && limits.eventTypeSeconds == 0 && limits.projectSeconds == 0
  }

  lemma CheckAfterStamp(r: Registries, limits: Limits, keys: Keys, t: real)
    requires keys.fingerprint != "" && keys.eventType != "" && keys.projectId != ""
    ensures Check(Stamped(r, keys, t), limits, keys, t).allowed <==> NoCooldown(limits)
    ensures Check(NOTHING, limits, keys, t).allowed
  {
  }

  lemma ExecutesOn(cfg: Setup, st: RunnerState, call: Call, cooldown: Registries, t: real)
    requires Recovery(cfg, st, call).1.executed
    ensures Recovery(cfg, st.(cooldown := cooldown), Again(call, t)).1.executed <==>
      Check(cooldown, LimitsOf(cfg.project), KeysOf(call.event, cfg.project), t).allowed
  {
    var st', call' := st.(cooldown := cooldown), Again(call, t);
    ExecutesIff(cfg, st, call);
    ExecutesIff(cfg, st', call');
    GateAllowsIff(cfg.reg, cfg.site.host, cfg.project, call.event,
                  Check(st.cooldown, LimitsOf(cfg.project), KeysOf(call.event, cfg.project), call.checkedAt),
                      call.view);
    GateAllowsIff(cfg.reg, cfg.site.host, cfg.project, call.event,
                  Check(cooldown, LimitsOf(cfg.project), KeysOf(call.event, cfg.project), t), call.view);
    FreshGateIsAuthorized(cfg, st.cooldown, call);
    FreshGateIsAuthorized(cfg, cooldown, call');
  }

  /**
   Spacing ends with the runner. Repeated at once on an unchanged approval log, a call that executed executes again
   on a new runner whatever the cooldowns, and on the old one exactly when all three cooldowns are zero.
   */
  lemma SpacingEndsWithRunner(cfg: Setup, st: RunnerState, call: Call)
    requires Recovery(cfg, st, call).1.executed
    ensures Recovery(cfg, st.(cooldown := NOTHING), Again(call, call.stampAt)).1.executed
    ensures Recovery(cfg, st.(cooldown := Recovery(cfg, st, call).0.cooldown),
        Again(call, call.stampAt)).1.executed <==>
      NoCooldown(LimitsOf(cfg.project))
  {
    var keys := KeysOf(call.event, cfg.project);
    StampsIffExecuted(cfg, st, call);
    AllowedHasKeys(st.cooldown, LimitsOf(cfg.project), keys, call.reserveAt);
    CheckAfterStamp(st.cooldown, LimitsOf(cfg.project), keys, call.stampAt);
    ExecutesOn(cfg, st, call, NOTHING, call.stampAt);
    ExecutesOn(cfg, st, call, Stamped(st.cooldown, keys, call.stampAt), call.stampAt);
  }

  lemma AllowedHasKeys(r: Registries, limits: Limits, keys: Keys, now: real)
    requires Check(r, limits, keys, now).allowed
    ensures keys.fingerprint != "" && keys.eventType != "" && keys.projectId != ""
  {
  }
}
