/** Flood control of one monitor process: how many events, reports and alerts a cycle may produce. */
module RateLimit {
  import opened Wrappers
  import opened Projects

  datatype RateConfig = RateConfig(
    maxEvents: int,
    maxReports: int,
    maxAlerts: int,
    maxReportsPerType: int,
    maxAlertsPerType: int,
    reportCooldown: int,
    alertCooldown: int)

  const DEFAULT_LIMITS := RateConfig(3, 5, 3, 2, 2, 300, 300)

  /** Counters of the running cycle, and what the process remembers across cycles. */
  datatype RateState = RateState(
    eventsHandled: nat,
    reportsReserved: nat,
    alertsReserved: nat,
    reportsByType: map<string, nat>,
    alertsByType: map<string, nat>,
    lastReport: map<string, real>,
    lastAlert: map<string, real>,
    alerted: set<string>)

  const FRESH_STATE := RateState(0, 0, 0, map[], map[], map[], map[], {})

  function BeginCycle(s: RateState): RateState {
    s.(eventsHandled := 0, reportsReserved := 0, alertsReserved := 0, reportsByType := map[], alertsByType := map[])
  }

  function Count(m: map<string, nat>, key: string): nat {
    if key in m then m[key] else 0
  }

  predicate CooldownAllows(registry: map<string, real>, fingerprint: string, seconds: int, now: real) {
    seconds <= 0 || fingerprint !in registry || now - registry[fingerprint] >= seconds as real
  }

  predicate AllowsEvent(cfg: RateConfig, s: RateState) {
    s.eventsHandled < cfg.maxEvents
  }

  function EventHandled(s: RateState): RateState {
    s.(eventsHandled := s.eventsHandled + 1)
  }

  predicate AllowsReport(cfg: RateConfig, s: RateState, event: Event, expected: int, now: real) {
    && s.reportsReserved + AtLeastOne(expected) <= cfg.maxReports
    && Count(s.reportsByType, event.eventType) < cfg.maxReportsPerType
    && CooldownAllows(s.lastReport, event.fingerprint, cfg.reportCooldown, now)
  }

  function ReserveReport(cfg: RateConfig, s: RateState, event: Event, expected: int, now: real,
                         stamp: real): (RateState, bool) {
    if !AllowsReport(cfg, s, event, expected, now) then (s, false)
    else
      (s.(reportsReserved := s.reportsReserved + AtLeastOne(expected),
          reportsByType := s.reportsByType[event.eventType := Count(s.reportsByType, event.eventType) + 1],
          lastReport := s.lastReport[event.fingerprint := stamp]),
       true)
  }

  function ReserveCycleReport(cfg: RateConfig, s: RateState): (RateState, bool) {
    if s.reportsReserved + 1 > cfg.maxReports then (s, false)
    else (s.(reportsReserved := s.reportsReserved + 1), true)
  }

  datatype AlertVerdict = AlertGranted | AlreadyAlerted | TooManyAlerts | TooManyOfType | AlertCoolingDown

  function JudgeAlert(cfg: RateConfig, s: RateState, event: Event, now: real): AlertVerdict {
    if event.fingerprint in s.alerted then AlreadyAlerted
    else if s.alertsReserved >= cfg.maxAlerts then TooManyAlerts
    else if Count(s.alertsByType, event.eventType) >= cfg.maxAlertsPerType then TooManyOfType
    else if !CooldownAllows(s.lastAlert, event.fingerprint, cfg.alertCooldown, now) then AlertCoolingDown
    else AlertGranted
  }

  function ReserveAlert(cfg: RateConfig, s: RateState, event: Event, now: real, stamp: real):
    (RateState, AlertVerdict)
  {
    var verdict := JudgeAlert(cfg, s, event, now);
    if verdict != AlertGranted then (s, verdict)
    else
      (s.(alertsReserved := s.alertsReserved + 1,
          alertsByType := s.alertsByType[event.eventType := Count(s.alertsByType, event.eventType) + 1],
          lastAlert := s.lastAlert[event.fingerprint := stamp],
          alerted := s.alerted + {event.fingerprint}),
       AlertGranted)
  }

  class RateLimitTracker {
    const config: RateConfig
    var eventsHandled: nat
    var reportsReserved: nat
    var alertsReserved: nat
    var reportsByType: map<string, nat>
    var alertsByType: map<string, nat>
    var lastReport: map<string, real>
    var lastAlert: map<string, real>
    var alerted: set<string>

    constructor (config: RateConfig)
      ensures this.config == config && State() == FRESH_STATE
    {
      this.config := config;
      eventsHandled, reportsReserved, alertsReserved := 0, 0, 0;
      reportsByType, alertsByType, lastReport, lastAlert, alerted := map[], map[], map[], map[], {};
    }

    function State(): RateState
      reads this
    {
      RateState(eventsHandled, reportsReserved, alertsReserved, reportsByType, alertsByType, lastReport, lastAlert,
                alerted)
    }

    method StartCycle()
      modifies this
      ensures State() == BeginCycle(old(State()))
    {
      eventsHandled, reportsReserved, alertsReserved := 0, 0, 0;
      reportsByType, alertsByType := map[], map[];
    }

    method AllowEvent() returns (allowed: bool)
      ensures allowed == AllowsEvent(config, State())
    {
      allowed := !(eventsHandled >= config.maxEvents);
    }

    method RecordEventHandled()
      modifies this
      ensures State() == EventHandled(old(State()))
    {
      eventsHandled := eventsHandled + 1;
    }

    method ReserveReportCapacity(event: Event, expected: int, now: real, stamp: real) returns (allowed: bool)
      modifies this
      ensures (State(), allowed) == ReserveReport(config, old(State()), event, expected, now, stamp)
    {
      var needed := AtLeastOne(expected);
      if reportsReserved + needed > config.maxReports {
        return false;
      }
      var current := Count(reportsByType, event.eventType);
      if current >= config.maxReportsPerType {
        return false;
      }
      if !CooldownAllows(lastReport, event.fingerprint, config.reportCooldown, now) {
        return false;
      }
      reportsReserved := reportsReserved + needed;
      reportsByType := reportsByType[event.eventType := current + 1];
      lastReport := lastReport[event.fingerprint := stamp];
      return true;
    }

    method ReserveCycleReportCapacity() returns (allowed: bool)
      modifies this
      ensures (State(), allowed) == ReserveCycleReport(config, old(State()))
    {
      if reportsReserved + 1 > config.maxReports {
        return false;
      }
      reportsReserved := reportsReserved + 1;
      return true;
    }

    method ReserveAlertCapacity(event: Event, now: real, stamp: real) returns (verdict: AlertVerdict)
      modifies this
      ensures (State(), verdict) == ReserveAlert(config, old(State()), event, now, stamp)
    {
      if event.fingerprint in alerted {
        return AlreadyAlerted;
      }
      if alertsReserved >= config.maxAlerts {
        return TooManyAlerts;
      }
      var current := Count(alertsByType, event.eventType);
      if current >= config.maxAlertsPerType {
        return TooManyOfType;
      }
      if !CooldownAllows(lastAlert, event.fingerprint, config.alertCooldown, now) {
        return AlertCoolingDown;
      }
      alertsReserved := alertsReserved + 1;
      alertsByType := alertsByType[event.eventType := current + 1];
      lastAlert := lastAlert[event.fingerprint := stamp];
      alerted := alerted + {event.fingerprint};
      return AlertGranted;
    }
  }

  // ----- what every sequence of calls keeps -----

  datatype RateOp =
    | StartsCycle
    | HandlesEvent
    | ReservesReport(event: Event, expected: int, now: real, stamp: real)
    | ReservesCycleReport
    | ReservesAlert(event: Event, now: real, stamp: real)

  function RateStep(cfg: RateConfig, s: RateState, op: RateOp): RateState {
    match op
    case StartsCycle => BeginCycle(s)
    case HandlesEvent => EventHandled(s)
    case ReservesReport(event, expected, now, stamp) => ReserveReport(cfg, s, event, expected, now, stamp).0
    case ReservesCycleReport => ReserveCycleReport(cfg, s).0
    case ReservesAlert(event, now, stamp) => ReserveAlert(cfg, s, event, now, stamp).0
  }

  /** The sum of the counts in a dictionary. */
  ghost function Total(m: map<string, nat>): nat
    decreases |m|
  {
    if m == map[] then 0
    else
      var k :| k in m;
      m[k] + Total(m - {k})
  }

  lemma {:induction false} TotalWithout(m: map<string, nat>, k: string)
    requires k in m
    ensures Total(m) == m[k] + Total(m - {k})
    decreases |m|
  {
    var c :| c in m && Total(m) == m[c] + Total(m - {c});
    if c != k {
      TotalWithout(m - {c}, k);
      TotalWithout(m - {k}, c);
      assert (m - {c}) - {k} == (m - {k}) - {c};
    }
  }

  lemma TotalAfterUpdate(m: map<string, nat>, k: string, v: nat)
    ensures Total(m[k := v]) == Total(m) - Count(m, k) + v
  {
    TotalWithout(m[k := v], k);
    if k in m {
      TotalWithout(m, k);
      assert m[k := v] - {k} == m - {k};
    } else {
      assert m[k := v] - {k} == m;
    }
  }

  /** Alerts are booked consistently: by type they add up, and whoever alerted has a time of its last alert. */
  ghost predicate AlertsConsistent(s: RateState) {
    s.alertsReserved == Total(s.alertsByType) && s.alerted == s.lastAlert.Keys
  }

  /** Every call keeps the books consistent, starting from a fresh process. */
  lemma StepKeepsAlertsConsistent(cfg: RateConfig, s: RateState, op: RateOp)
    requires AlertsConsistent(s)
    ensures AlertsConsistent(RateStep(cfg, s, op))
    ensures s.alerted <= RateStep(cfg, s, op).alerted
  {
    if op.ReservesAlert? {
      TotalAfterUpdate(s.alertsByType, op.event.eventType, Count(s.alertsByType, op.event.eventType) + 1);
    }
  }

  ghost predicate RateRun(cfg: RateConfig, states: seq<RateState>, ops: seq<RateOp>) {
    && |states| == |ops| + 1
    && states[0] == FRESH_STATE
    && forall i | 0 <= i < |ops| :: states[i + 1] == RateStep(cfg, states[i], ops[i])
  }

  lemma {:induction false} RunKeepsAlertsConsistent(cfg: RateConfig, states: seq<RateState>, ops: seq<RateOp>, i: nat,
                                                    j: nat)
    requires RateRun(cfg, states, ops) && i <= j <= |ops|
    ensures AlertsConsistent(states[j]) && (i < j ==> states[i].alerted <= states[j].alerted)
    decreases j
  {
    if j > 0 {
      RunKeepsAlertsConsistent(cfg, states, ops, if i < j then i else 0, j - 1);
      var k := j - 1;
      assert states[k + 1] == RateStep(cfg, states[k], ops[k]);
      StepKeepsAlertsConsistent(cfg, states[k], ops[k]);
    }
  }

  predicate GrantsAlert(cfg: RateConfig, s: RateState, op: RateOp, fingerprint: string) {
    op.ReservesAlert? && op.event.fingerprint == fingerprint
    && ReserveAlert(cfg, s, op.event, op.now, op.stamp).1 == AlertGranted
  }

  /** In one process a fingerprint alerts at most once, whatever the cycles and the clock. */
  lemma FingerprintAlertsOnce(cfg: RateConfig, states: seq<RateState>, ops: seq<RateOp>, i: nat, j: nat,
                              fingerprint: string)
    requires RateRun(cfg, states, ops) && i < j < |ops|
    requires GrantsAlert(cfg, states[i], ops[i], fingerprint)
    ensures !GrantsAlert(cfg, states[j], ops[j], fingerprint)
  {
    assert states[i + 1] == RateStep(cfg, states[i], ops[i]);
    assert fingerprint in states[i + 1].alerted;
    RunKeepsAlertsConsistent(cfg, states, ops, i + 1, j);
  }

  /** And because of that the cooldown of alerts never refuses one: that branch is never taken. */
  lemma AlertCooldownNeverRefuses(cfg: RateConfig, states: seq<RateState>, ops: seq<RateOp>, i: nat, event: Event,
                                  now: real)
    requires RateRun(cfg, states, ops) && i <= |ops|
    ensures JudgeAlert(cfg, states[i], event, now) != AlertCoolingDown
  {
    RunKeepsAlertsConsistent(cfg, states, ops, 0, i);
  }

  // ----- the limits -----

  /** An alert is granted exactly if nothing stands against it; otherwise the first objection is named. */
  lemma AlertVerdictIff(cfg: RateConfig, s: RateState, event: Event, now: real)
    ensures var verdict := JudgeAlert(cfg, s, event, now);
      var known, full := event.fingerprint in s.alerted, cfg.maxAlerts <= s.alertsReserved;
      var fullOfType := cfg.maxAlertsPerType <= Count(s.alertsByType, event.eventType);
      var cooling := cfg.alertCooldown > 0 && event.fingerprint in s.lastAlert
                     && now < s.lastAlert[event.fingerprint] + cfg.alertCooldown as real;
      && (verdict == AlertGranted <==> !known && !full && !fullOfType && !cooling)
      && (verdict == AlreadyAlerted <==> known)
      && (verdict == TooManyAlerts <==> !known && full)
      && (verdict == TooManyOfType <==> !known && !full && fullOfType)
    ensures forall stamp :: ReserveAlert(cfg, s, event, now, stamp).1 == JudgeAlert(cfg, s, event, now)
  {
  }

  /** A report is granted exactly if it fits the cycle and its type, and the fingerprint's cooldown is over. */
  lemma ReportGrantedIff(cfg: RateConfig, s: RateState, event: Event, expected: int, now: real, stamp: real)
    ensures ReserveReport(cfg, s, event, expected, now, stamp).1 <==>
      && s.reportsReserved + (if expected < 1 then 1 else expected) <= cfg.maxReports
      && Count(s.reportsByType, event.eventType) < cfg.maxReportsPerType
      && (cfg.reportCooldown > 0 && event.fingerprint in s.lastReport ==>
          s.lastReport[event.fingerprint] + cfg.reportCooldown as real <= now)
    ensures ReserveCycleReport(cfg, s).1 <==> s.reportsReserved < cfg.maxReports
  {
  }

  /** Nothing was reserved beyond a limit. */
  ghost predicate Limited(cfg: RateConfig, s: RateState) {
    && (s.alertsReserved > 0 ==> s.alertsReserved <= cfg.maxAlerts)
    && (s.reportsReserved > 0 ==> s.reportsReserved <= cfg.maxReports)
    && (forall t | t in s.alertsByType :: s.alertsByType[t] <= cfg.maxAlertsPerType)
    && (forall t | t in s.reportsByType :: s.reportsByType[t] <= cfg.maxReportsPerType)
  }

  lemma StepKeepsLimited(cfg: RateConfig, s: RateState, op: RateOp)
    requires Limited(cfg, s)
    ensures Limited(cfg, RateStep(cfg, s, op))
  {
  }

  /** Within a cycle no more reports and alerts are reserved than the limits allow, in all and of each type. */
  lemma {:induction false} RunStaysLimited(cfg: RateConfig, states: seq<RateState>, ops: seq<RateOp>, n: nat)
    requires RateRun(cfg, states, ops) && n <= |ops|
    ensures Limited(cfg, states[n])
  {
    if n > 0 {
      RunStaysLimited(cfg, states, ops, n - 1);
      var k := n - 1;
      assert states[k + 1] == RateStep(cfg, states[k], ops[k]);
      StepKeepsLimited(cfg, states[k], ops[k]);
    }
  }

  // ----- what the counters and memories of a run mean -----

  /** The call reserves a report. */
  predicate GrantsReport(cfg: RateConfig, s: RateState, op: RateOp) {
    op.ReservesReport? && ReserveReport(cfg, s, op.event, op.expected, op.now, op.stamp).1
  }

  /** How many of the first n calls since the last start of a cycle have a property. */
  ghost function InCycle(ops: seq<RateOp>, has: nat -> bool, n: nat): nat
    requires n <= |ops|
  {
    if n == 0 || ops[n - 1].StartsCycle? then 0
    else InCycle(ops, has, n - 1) + (if has(n - 1) then 1 else 0)
  }

  ghost function ReportsOfType(cfg: RateConfig, states: seq<RateState>, ops: seq<RateOp>, eventType: string):
    nat -> bool
  {
    (i: nat) => i < |ops| && i < |states| && GrantsReport(cfg, states[i], ops[i])
                && ops[i].event.eventType == eventType
  }

  ghost function AlertsOfType(cfg: RateConfig, states: seq<RateState>, ops: seq<RateOp>, eventType: string):
    nat -> bool
  {
    (i: nat) => i < |ops| && i < |states| && ops[i].ReservesAlert? && ops[i].event.eventType == eventType
                && GrantsAlert(cfg, states[i], ops[i], ops[i].event.fingerprint)
  }

  ghost function Handles(ops: seq<RateOp>): nat -> bool {
    (i: nat) => i < |ops| && ops[i].HandlesEvent?
  }

  lemma {:induction false} EventsTell(cfg: RateConfig, states: seq<RateState>, ops: seq<RateOp>, n: nat)
    requires RateRun(cfg, states, ops) && n <= |ops|
    ensures states[n].eventsHandled == InCycle(ops, Handles(ops), n)
  {
    if n > 0 {
      var k := n - 1;
      EventsTell(cfg, states, ops, k);
      assert states[k + 1] == RateStep(cfg, states[k], ops[k]);
    }
  }

  lemma ReportsStep(cfg: RateConfig, s: RateState, op: RateOp, eventType: string)
    ensures Count(RateStep(cfg, s, op).reportsByType, eventType) ==
      if op.StartsCycle? then 0
      else Count(s.reportsByType, eventType)
           + (if GrantsReport(cfg, s, op) && op.event.eventType == eventType then 1 else 0)
  {
  }

  lemma {:induction false} ReportsTell(cfg: RateConfig, states: seq<RateState>, ops: seq<RateOp>, n: nat,
                                       eventType: string)
    requires RateRun(cfg, states, ops) && n <= |ops|
    ensures Count(states[n].reportsByType, eventType) == InCycle(ops, ReportsOfType(cfg, states, ops, eventType), n)
  {
    if n > 0 {
      var k := n - 1;
      ReportsTell(cfg, states, ops, k, eventType);
      assert states[k + 1] == RateStep(cfg, states[k], ops[k]);
      ReportsStep(cfg, states[k], ops[k], eventType);
    }
  }

  lemma AlertsStep(cfg: RateConfig, s: RateState, op: RateOp, eventType: string)
    ensures Count(RateStep(cfg, s, op).alertsByType, eventType) ==
      if op.StartsCycle? then 0
      else Count(s.alertsByType, eventType)
           + (if op.ReservesAlert? && op.event.eventType == eventType && GrantsAlert(cfg, s, op, op.event.fingerprint)
              then 1 else 0)
  {
  }

  lemma {:induction false} AlertsTell(cfg: RateConfig, states: seq<RateState>, ops: seq<RateOp>, n: nat,
                                      eventType: string)
    requires RateRun(cfg, states, ops) && n <= |ops|
    ensures Count(states[n].alertsByType, eventType) == InCycle(ops, AlertsOfType(cfg, states, ops, eventType), n)
  {
    if n > 0 {
      var k := n - 1;
      AlertsTell(cfg, states, ops, k, eventType);
      assert states[k + 1] == RateStep(cfg, states[k], ops[k]);
      AlertsStep(cfg, states[k], ops[k], eventType);
    }
  }

  /** At any time of a run the counters are the events, reports and alerts of the cycle so far, of each type. */
  lemma CountersTell(cfg: RateConfig, states: seq<RateState>, ops: seq<RateOp>, n: nat, eventType: string)
    requires RateRun(cfg, states, ops) && n <= |ops|
    ensures states[n].eventsHandled == InCycle(ops, Handles(ops), n)
    ensures Count(states[n].reportsByType, eventType) == InCycle(ops, ReportsOfType(cfg, states, ops, eventType), n)
    ensures Count(states[n].alertsByType, eventType) == InCycle(ops, AlertsOfType(cfg, states, ops, eventType), n)
  {
    EventsTell(cfg, states, ops, n);
    ReportsTell(cfg, states, ops, n, eventType);
    AlertsTell(cfg, states, ops, n, eventType);
  }

  /** So a cycle handles an event only while fewer than the limit were handled in it. */
  lemma EventAllowedIff(cfg: RateConfig, states: seq<RateState>, ops: seq<RateOp>, n: nat)
    requires RateRun(cfg, states, ops) && n <= |ops|
    ensures AllowsEvent(cfg, states[n]) <==> InCycle(ops, Handles(ops), n) < cfg.maxEvents
  {
    EventsTell(cfg, states, ops, n);
  }

  /** Time passes from call to call, and within one from the check to the stamp. */
  ghost predicate InTime(ops: seq<RateOp>) {
    && (forall i | 0 <= i < |ops| && ops[i].ReservesReport? :: ops[i].now <= ops[i].stamp)
    && (forall i, j | 0 <= i < j < |ops| && ops[i].ReservesReport? && ops[j].ReservesReport? ::
          ops[i].stamp <= ops[j].now)
  }

  /** A report stays remembered, with its time or a later one, over cycles and other calls. */
  lemma {:induction false} ReportRemembered(cfg: RateConfig, states: seq<RateState>, ops: seq<RateOp>, i: nat, n: nat)
    requires RateRun(cfg, states, ops) && InTime(ops) && i < n <= |ops|
    requires GrantsReport(cfg, states[i], ops[i])
    ensures ops[i].event.fingerprint in states[n].lastReport
    ensures ops[i].stamp <= states[n].lastReport[ops[i].event.fingerprint]
    decreases n
  {
    var k := n - 1;
    assert states[k + 1] == RateStep(cfg, states[k], ops[k]);
    if i < k {
      ReportRemembered(cfg, states, ops, i, k);
    }
  }

  /** Two reports for one fingerprint are the configured seconds apart, in whatever cycles they are. */
  lemma ReportsAreSpaced(cfg: RateConfig, states: seq<RateState>, ops: seq<RateOp>, i: nat, j: nat)
    requires RateRun(cfg, states, ops) && InTime(ops) && i < j < |ops|
    requires GrantsReport(cfg, states[i], ops[i]) && GrantsReport(cfg, states[j], ops[j])
    requires ops[i].event.fingerprint == ops[j].event.fingerprint
    ensures ops[i].stamp + cfg.reportCooldown as real <= ops[j].now
  {
    ReportRemembered(cfg, states, ops, i, j);
  }
}
