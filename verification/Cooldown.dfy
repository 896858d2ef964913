/** The cooldown registries: when a fingerprint, an event type and a project were last reserved. */
module Cooldown {
  import opened Wrappers
  import opened Projects

  datatype Scope = FingerprintScope | EventTypeScope | ProjectScope

  datatype CooldownResult = CooldownResult(allowed: bool, reserved: bool, blocked: seq<Scope>)

  datatype Limits = Limits(fingerprintSeconds: nat, eventTypeSeconds: nat, projectSeconds: nat)

  datatype Registries = Registries(
    fingerprint: map<string, real>,
    eventType: map<string, real>,
    project: map<string, real>)

  datatype Keys = Keys(eventType: string, fingerprint: string, projectId: string)

  function NotNegative(n: int): nat {
    if n < 0 then 0 else n
  }

  function LimitsOf(project: Project): Limits {
    Limits(NotNegative(project.policy.fingerprintSeconds), NotNegative(project.policy.eventTypeSeconds),
           NotNegative(project.policy.projectSeconds))
  }

  function KeysOf(event: Event, project: Project): Keys {
    Keys(event.eventType, event.fingerprint, project.projectId)
  }

  predicate ScopeAllows(registry: map<string, real>, key: string, seconds: nat, now: real) {
    if key == "" then false
    else if seconds == 0 || key !in registry then true
    else
      var elapsed := if now - registry[key] < 0.0 then 0.0 else now - registry[key];
      elapsed >= seconds as real
  }

  function Blocked(r: Registries, limits: Limits, keys: Keys, now: real): seq<Scope> {
    (if ScopeAllows(r.fingerprint, keys.fingerprint, limits.fingerprintSeconds, now) then [] else [FingerprintScope])
    + (if ScopeAllows(r.eventType, keys.eventType, limits.eventTypeSeconds, now) then [] else [EventTypeScope])
    + (if ScopeAllows(r.project, keys.projectId, limits.projectSeconds, now) then [] else [ProjectScope])
  }

  function Check(r: Registries, limits: Limits, keys: Keys, now: real): CooldownResult {
    var blocked := Blocked(r, limits, keys, now);
    CooldownResult(blocked == [], false, blocked)
  }

  function Stamped(r: Registries, keys: Keys, now: real): Registries {
    Registries(r.fingerprint[keys.fingerprint := now], r.eventType[keys.eventType := now],
               r.project[keys.projectId := now])
  }

  /** One reservation. The clock is read once for the check and again for the stamp. */
  function Reserve(r: Registries, limits: Limits, keys: Keys, checkedAt: real, stamp: real):
    (Registries, CooldownResult)
  {
    var result := Check(r, limits, keys, checkedAt);
    if result.allowed then (Stamped(r, keys, stamp), result.(reserved := true)) else (r, result)
  }

  class CooldownTracker {
    const limits: Limits
    var fingerprintLast: map<string, real>
    var eventTypeLast: map<string, real>
    var projectLast: map<string, real>

    constructor (project: Project)
      ensures limits == LimitsOf(project) && State() == Registries(map[], map[], map[])
    {
      limits := LimitsOf(project);
      fingerprintLast, eventTypeLast, projectLast := map[], map[], map[];
    }

    function State(): Registries
      reads this
    {
      Registries(fingerprintLast, eventTypeLast, projectLast)
    }

    method CheckNow(keys: Keys, now: real) returns (result: CooldownResult)
      ensures result == Check(State(), limits, keys, now)
      ensures result.allowed <==> result.blocked == []
      ensures result.allowed ==> keys.fingerprint != "" && keys.eventType != "" && keys.projectId != ""
    {
      var blocked := [];
      if !ScopeAllows(fingerprintLast, keys.fingerprint, limits.fingerprintSeconds, now) {
        blocked := blocked + [FingerprintScope];
      }
      if !ScopeAllows(eventTypeLast, keys.eventType, limits.eventTypeSeconds, now) {
        blocked := blocked + [EventTypeScope];
      }
      if !ScopeAllows(projectLast, keys.projectId, limits.projectSeconds, now) {
        blocked := blocked + [ProjectScope];
      }
      result := CooldownResult(blocked == [], false, blocked);
    }

    method ReserveNow(keys: Keys, checkedAt: real, stamp: real) returns (result: CooldownResult)
      modifies this
      ensures (State(), result) == Reserve(old(State()), limits, keys, checkedAt, stamp)
      ensures !result.reserved ==> State() == old(State())
    {
      result := CheckNow(keys, checkedAt);
      if !result.allowed {
        return;
      }
      fingerprintLast := fingerprintLast[keys.fingerprint := stamp];
      eventTypeLast := eventTypeLast[keys.eventType := stamp];
      projectLast := projectLast[keys.projectId := stamp];
      result := result.(reserved := true);
    }
  }
}
