/** The rules that decide whether one field change is a safe downgrade. */
module Semantics {
  import opened Wrappers
  import opened ConfigTree

  /** Any rule name other than the first four is treated as a literal assignment. */
  datatype Rule = DisableBool | LowerInt | PortAvailable | SafeEnumDowngrade | SetLiteral

  datatype Status = NoOp | Actionable | Unsafe | Deferred

  /** The reason codes, one constructor for each text the rules report. */
  datatype Reason =
    | AlreadyTargetValue
    | BooleanTrueToFalse
    | BooleanDisableRequiresTrueToFalse
    | IntegerLoweringRequiresIntValues
    | IntegerValueWillDecrease
    | IntegerValueWouldNotDecrease
    | PortTargetRequiresIntValue
    | PortAvailabilityCheckDeferred
    | TargetPortAvailable
    | TargetPortNotAvailable
    | SafeEnumDowngradeRequiresStringValues
    | SafeEnumTargetNotAllowlisted
    | SafeEnumDowngradeTargetAllowlisted
    | LiteralSetAllowed
    | SemanticCheckDeferred

  datatype Transition = Transition(status: Status, safe: bool, actionable: bool, noOp: bool, reason: Reason)

  const SAFE_ENUM_DOWNGRADE_VALUES := {"memory", "local", "file", "console"}

  function NoOpBecause(reason: Reason): Transition { Transition(NoOp, true, false, true, reason) }
  function ActionableBecause(reason: Reason): Transition { Transition(Actionable, true, true, false, reason) }
  function UnsafeBecause(reason: Reason): Transition { Transition(Unsafe, false, false, false, reason) }
  function DeferredBecause(reason: Reason): Transition { Transition(Deferred, true, true, false, reason) }

  /** `port` is None when nobody has probed the target port. */
  function Evaluate(rule: Rule, old_: Json, new_: Json, port: Option<bool>): Transition {
    if PyEq(old_, new_) then NoOpBecause(AlreadyTargetValue)
    else match rule
      case DisableBool =>
        if old_ == Bool(true) && new_ == Bool(false) then ActionableBecause(BooleanTrueToFalse)
        else UnsafeBecause(BooleanDisableRequiresTrueToFalse)
      case LowerInt =>
        if !old_.Int? || !new_.Int? then UnsafeBecause(IntegerLoweringRequiresIntValues)
        else if old_.num > new_.num then ActionableBecause(IntegerValueWillDecrease)
        else UnsafeBecause(IntegerValueWouldNotDecrease)
      case PortAvailable =>
        if !new_.Int? then UnsafeBecause(PortTargetRequiresIntValue)
        else if port.None? then DeferredBecause(PortAvailabilityCheckDeferred)
        else if port.value then ActionableBecause(TargetPortAvailable)
        else UnsafeBecause(TargetPortNotAvailable)
      case SafeEnumDowngrade =>
        if !old_.Str? || !new_.Str? then UnsafeBecause(SafeEnumDowngradeRequiresStringValues)
        else if Normalize(new_.text) !in SAFE_ENUM_DOWNGRADE_VALUES then
          UnsafeBecause(SafeEnumTargetNotAllowlisted)
        else ActionableBecause(SafeEnumDowngradeTargetAllowlisted)
      case SetLiteral => ActionableBecause(LiteralSetAllowed)
  }

  /** The transition assumed for a remote file that the precheck cannot read. */
  function DeferredTransition(): Transition {
    DeferredBecause(SemanticCheckDeferred)
  }

  /** Binding the port on the host succeeded. The only thing known about the network. */
  type Probe = (string, int) -> bool

  predicate TcpPortAvailable(probe: Probe, host: string, port: Json) {
    port.Int? && 0 < port.num <= 65535 && probe(host, port.num)
  }

  const LOOPBACK := "127.0.0.1"

  /** A configured host counts when it is a string with something besides white space in it. */
  function HostOr(host: Json, default: string): string {
    if host.Str? && Strip(host.text) != "" then Strip(host.text) else default
  }

  function TargetPortHost(data: Json): string {
    match Lookup(data, ["metrics_host"])
    case Some(host) => HostOr(host, LOOPBACK)
    case None => LOOPBACK
  }

  /** How the precheck and the local executor judge one candidate: the port is probed only when it would change. */
  function LocalTransition(rule: Rule, data: Json, old_: Json, new_: Json, probe: Probe): Transition {
    var port :=
      if rule == PortAvailable && !PyEq(old_, new_)
      then Some(TcpPortAvailable(probe, TargetPortHost(data), new_))
      else None;
    Evaluate(rule, old_, new_, port)
  }

  /** The host the remote script probes: it reads the top-level key directly. */
  function RemotePortHost(data: Json): string
    requires data.Obj?
  {
    HostOr(if "metrics_host" in data.fields then data.fields["metrics_host"] else Str(LOOPBACK), LOOPBACK)
  }

  /** The copy of the rules that the remote script carries. It always probes. */
  function RemoteTransition(rule: Rule, data: Json, old_: Json, new_: Json, probe: Probe): Transition
    requires data.Obj?
  {
    if PyEq(old_, new_) then NoOpBecause(AlreadyTargetValue)
    else if rule == DisableBool then
      if old_ == Bool(true) && new_ == Bool(false) then ActionableBecause(BooleanTrueToFalse)
      else UnsafeBecause(BooleanDisableRequiresTrueToFalse)
    else if rule == LowerInt then
      if !old_.Int? || !new_.Int? then UnsafeBecause(IntegerLoweringRequiresIntValues)
      else if old_.num > new_.num then ActionableBecause(IntegerValueWillDecrease)
      else UnsafeBecause(IntegerValueWouldNotDecrease)
    else if rule == PortAvailable then
      if !new_.Int? then UnsafeBecause(PortTargetRequiresIntValue)
      else if TcpPortAvailable(probe, RemotePortHost(data), new_) then ActionableBecause(TargetPortAvailable)
      else UnsafeBecause(TargetPortNotAvailable)
    else if rule == SafeEnumDowngrade then
      if !old_.Str? || !new_.Str? then UnsafeBecause(SafeEnumDowngradeRequiresStringValues)
      else if Normalize(new_.text) !in SAFE_ENUM_DOWNGRADE_VALUES then
        UnsafeBecause(SafeEnumTargetNotAllowlisted)
      else ActionableBecause(SafeEnumDowngradeTargetAllowlisted)
    else ActionableBecause(LiteralSetAllowed)
  }

  lemma RemotePortHostIsLocal(data: Json)
    requires data.Obj?
    ensures RemotePortHost(data) == TargetPortHost(data)
  {
    if "metrics_host" in data.fields {
      assert ["metrics_host"][1..] == [];
      assert Lookup(data, ["metrics_host"]) == Some(data.fields["metrics_host"]);
    } else {
      StripPlain(LOOPBACK);
      assert Lookup(data, ["metrics_host"]) == None;
    }
  }

  /** The two copies of the rules agree on every tree, value and probe, down to the reason they give. */
  lemma RemoteRulesAreLocalRules(rule: Rule, data: Json, old_: Json, new_: Json, probe: Probe)
    requires data.Obj?
    ensures RemoteTransition(rule, data, old_, new_, probe) == LocalTransition(rule, data, old_, new_, probe)
  {
    RemotePortHostIsLocal(data);
  }

  lemma StripPlain(s: string)
    requires s != [] ==> !IsSpace(s[0]) && !IsSpace(s[|s| - 1])
    ensures Strip(s) == s
  {
  }

  /** Exactly one verdict, and no verdict both safe and refused. */
  lemma TransitionTrichotomy(rule: Rule, old_: Json, new_: Json, port: Option<bool>)
    ensures var t := Evaluate(rule, old_, new_, port);
      && (t.noOp || t.actionable || t.status == Unsafe)
      && !(t.noOp && t.actionable) && (t.status == Unsafe ==> !t.noOp && !t.actionable)
      && (t.safe <==> t.noOp || t.actionable)
      && (t.noOp <==> PyEq(old_, new_))
  {
  }

  /**
   What an actionable change can do: a switch only goes from on to off, a number only goes down, a
   mode only goes to an allowlisted local mode, a port only to one that was free.
   */
  lemma ActionableOnlyLowers(rule: Rule, data: Json, old_: Json, new_: Json, probe: Probe)
    requires LocalTransition(rule, data, old_, new_, probe).actionable
    ensures !PyEq(old_, new_)
    ensures rule == DisableBool ==> old_ == Bool(true) && new_ == Bool(false)
    ensures rule == LowerInt ==> old_.Int? && new_.Int? && new_.num < old_.num
    ensures rule == SafeEnumDowngrade ==> new_.Str? && Normalize(new_.text) in SAFE_ENUM_DOWNGRADE_VALUES
    ensures rule == PortAvailable ==> new_.Int? && probe(TargetPortHost(data), new_.num)
  {
  }

  /** A rule lets a change through exactly then, when the values differ. */
  predicate RuleAllows(rule: Rule, data: Json, old_: Json, new_: Json, probe: Probe) {
    match rule
    case DisableBool => old_ == Bool(true) && new_ == Bool(false)
    case LowerInt => old_.Int? && new_.Int? && new_.num < old_.num
    case PortAvailable => new_.Int? && 1 <= new_.num <= 65535 && probe(TargetPortHost(data), new_.num)
    case SafeEnumDowngrade =>
      old_.Str? && new_.Str? && Normalize(new_.text) in {"memory", "local", "file", "console"}
    case SetLiteral => true
  }

  /** Nothing is done for equal values; a change is made exactly if its rule allows it, and refused otherwise. */
  lemma TransitionIff(rule: Rule, data: Json, old_: Json, new_: Json, probe: Probe)
    ensures var t := LocalTransition(rule, data, old_, new_, probe);
      && (t.noOp <==> PyEq(old_, new_)) && (t.status == NoOp <==> t.noOp)
      && (t.actionable <==> !PyEq(old_, new_) && RuleAllows(rule, data, old_, new_, probe))
      && (t.status == Actionable <==> t.actionable)
      && (t.status == Unsafe <==> !t.noOp && !t.actionable)
      && (t.safe <==> t.noOp || t.actionable)
  {
  }

  /** Why a change was refused: it has the wrong kind of values, or it goes the wrong way. */
  lemma RefusalIff(rule: Rule, data: Json, old_: Json, new_: Json, probe: Probe)
    requires LocalTransition(rule, data, old_, new_, probe).status == Unsafe
    ensures var reason := LocalTransition(rule, data, old_, new_, probe).reason;
      match rule
      case DisableBool => reason == BooleanDisableRequiresTrueToFalse
      case LowerInt =>
        reason == if old_.Int? && new_.Int? then IntegerValueWouldNotDecrease else IntegerLoweringRequiresIntValues
      case PortAvailable => reason == if new_.Int? then TargetPortNotAvailable else PortTargetRequiresIntValue
      case SafeEnumDowngrade =>
        reason == if old_.Str? && new_.Str? then SafeEnumTargetNotAllowlisted else SafeEnumDowngradeRequiresStringValues
      case SetLiteral => false
  {
  }

  /** Why a change is made, or nothing is. */
  lemma AcceptanceIff(rule: Rule, data: Json, old_: Json, new_: Json, probe: Probe)
    requires LocalTransition(rule, data, old_, new_, probe).safe
    ensures var t := LocalTransition(rule, data, old_, new_, probe);
      t.reason ==
        if t.noOp then AlreadyTargetValue
        else match rule
          case DisableBool => BooleanTrueToFalse
          case LowerInt => IntegerValueWillDecrease
          case PortAvailable => TargetPortAvailable
          case SafeEnumDowngrade => SafeEnumDowngradeTargetAllowlisted
          case SetLiteral => LiteralSetAllowed
  {
  }

  /** A port that nobody probed is put off when it would change, and only then. */
  lemma DeferredIff(rule: Rule, old_: Json, new_: Json, port: Option<bool>)
    ensures Evaluate(rule, old_, new_, port).status == Deferred <==>
      !PyEq(old_, new_) && rule == PortAvailable && new_.Int? && port.None?
    ensures Evaluate(rule, old_, new_, port).status == Deferred ==> Evaluate(rule, old_, new_, port).actionable
  {
  }

  /** The host that is probed: the configured one without outer white space, if it is a text that has anything else. */
  lemma TargetPortHostIs(data: Json)
    ensures var host := Lookup(data, ["metrics_host"]);
      TargetPortHost(data) ==
        match host
        case Some(Str(text)) => if Strip(text) == "" then "127.0.0.1" else Strip(text)
        case _ => "127.0.0.1"
  {
  }
}
