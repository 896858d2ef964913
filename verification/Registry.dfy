/** The recovery registry: safe specifications, domain specifications and the indexes built over them. */
module Registry {
  import opened Wrappers
  import opened ConfigTree
  import opened Semantics

  datatype Layer = DiagnoseOnly | ManualEscalation | SafeAutoRecover | GuardedAutoRecover | Disabled

  datatype Risk = Low | Medium | High | Critical | Unknown

  datatype FieldCandidate = FieldCandidate(path: FieldPath, target: Json, rule: Rule)

  datatype SafeSpec = SafeSpec(
    eventType: string,
    fixId: string,
    configPath: string,
    candidates: seq<FieldCandidate>)

  datatype DomainSpec = DomainSpec(eventType: string, layer: Layer, risk: Risk, fixId: string)

  /**
   What a regular expression table can find in the text of an event. The patterns themselves are not
   modelled, only whether a table matched.
   */
  datatype Marker =
    | WorkerOverload | QueueBackpressure | PythonEnv | OptionalDependency
    | OptionalIntegration | CacheWrite | DiskFull | DependencyService

  /** Evidence that makes a fix ambiguous: two domains together, or one without the context it needs. */
  datatype AmbiguityRule =
    | Overlap(fixes: set<string>, first: Marker, second: Marker)
    | MissingContext(fixes: set<string>, found: Marker, context: Marker)

  /**
   The tables everything is decided from. `descriptions` maps a safe fix to its one-line description,
   `forbidden` lists the actions nothing may perform, `ambiguity` the evidence that needs a person, and
   `allowNote` the texts the gate writes beside each fix of a project's allowlist.
   */
  datatype Registry = Registry(
    safe: seq<SafeSpec>,
    manual: seq<DomainSpec>,
    diagnose: seq<DomainSpec>,
    descriptions: map<string, string>,
    forbidden: seq<string>,
    ambiguity: seq<AmbiguityRule>,
    allowNote: seq<string>)

  function SafeDomain(spec: SafeSpec): DomainSpec {
    DomainSpec(spec.eventType, SafeAutoRecover, Low, spec.fixId)
  }

  function SafeDomains(specs: seq<SafeSpec>): (r: seq<DomainSpec>)
    ensures |r| == |specs|
    ensures forall i | 0 <= i < |r| :: r[i] == SafeDomain(specs[i])
  {
    seq(|specs|, i requires 0 <= i < |specs| => SafeDomain(specs[i]))
  }

  /** All domains, in the order in which the registry lists them. */
  function Domains(reg: Registry): seq<DomainSpec> {
    SafeDomains(reg.safe) + reg.manual + reg.diagnose
  }

  // The indexes are dictionaries filled in order, so a later entry with the same key replaces an earlier one.

  function SpecByFix(specs: seq<SafeSpec>, fixId: string): (r: Option<SafeSpec>)
    ensures r.Some? ==> r.value in specs && r.value.fixId == fixId
    ensures r.None? ==> forall s | s in specs :: s.fixId != fixId
  {
    if specs == [] then None
    else if specs[|specs| - 1].fixId == fixId then Some(specs[|specs| - 1])
    else SpecByFix(specs[..|specs| - 1], fixId)
  }

  function SpecByEvent(specs: seq<SafeSpec>, eventType: string): (r: Option<SafeSpec>)
    ensures r.Some? ==> r.value in specs && r.value.eventType == eventType
    ensures r.None? ==> forall s | s in specs :: s.eventType != eventType
  {
    if specs == [] then None
    else if specs[|specs| - 1].eventType == eventType then Some(specs[|specs| - 1])
    else SpecByEvent(specs[..|specs| - 1], eventType)
  }

  function DomainByEvent(domains: seq<DomainSpec>, eventType: string): (r: Option<DomainSpec>)
    ensures r.Some? ==> r.value in domains && r.value.eventType == eventType
    ensures r.None? ==> forall d | d in domains :: d.eventType != eventType
  {
    if domains == [] then None
    else if domains[|domains| - 1].eventType == eventType then Some(domains[|domains| - 1])
    else DomainByEvent(domains[..|domains| - 1], eventType)
  }

  function DomainFor(reg: Registry, eventType: string): Option<DomainSpec> {
    DomainByEvent(Domains(reg), eventType)
  }

  /** The fix named by the domain of an event type, or the empty string. */
  function FixForEvent(reg: Registry, eventType: string): string {
    match DomainFor(reg, eventType)
    case Some(d) => d.fixId
    case None => ""
  }

  /** The fix named by the safe specification of an event type, or the empty string. */
  function SafeFixForEvent(reg: Registry, eventType: string): string {
    match SpecByEvent(reg.safe, eventType)
    case Some(s) => s.fixId
    case None => ""
  }

  /** The fix is a value of the event-type-to-safe-fix dictionary. */
  predicate IsSafeFix(reg: Registry, fixId: string) {
    exists s | s in reg.safe :: SafeFixForEvent(reg, s.eventType) == fixId
  }

  lemma SafeFixIsSafe(reg: Registry, eventType: string)
    requires SpecByEvent(reg.safe, eventType).Some?
    ensures IsSafeFix(reg, SafeFixForEvent(reg, eventType))
  {
    var s := SpecByEvent(reg.safe, eventType).value;
    assert s in reg.safe && s.eventType == eventType;
  }

  function DescriptionOf(reg: Registry, fixId: string): string {
    if fixId in reg.descriptions then reg.descriptions[fixId] else ""
  }

  /** Two candidates name the same field with the same target, or fields neither of which contains the other. */
  predicate Compatible(a: FieldCandidate, b: FieldCandidate) {
    (a.path == b.path && a.target == b.target) || Diverge(a.path, b.path)
  }

  /** No two specifications disagree about a field of a file they share. */
  ghost predicate Consistent(specs: seq<SafeSpec>) {
    forall s, t, a, b | s in specs && t in specs && s.configPath == t.configPath && a in s.candidates
        && b in t.candidates ::
      Compatible(a, b)
  }

  /** The registry's fix ids carry no white space at their ends. */
  predicate TrimmedIds(specs: seq<SafeSpec>) {
    forall s | s in specs :: Strip(s.fixId) == s.fixId != ""
  }
}
