/** The shipped tables name one domain for each event type, and only safe domains are ever recovered. */
module ShippedDomains {
  import opened Wrappers
  import opened ConfigTree
  import opened Semantics
  import opened Registry
  import opened Projects
  import opened Hosts
  import opened Policy
  import opened Gate
  import opened GateTheorems
  import opened ShippedRegistry

  // The certificate: the one domain of each event type, found by length first so that few names are compared.

  function DomainOf(type_: string): Option<DomainSpec> {
    match |type_|
    case 5 =>
      if type_ == "slurm" then Some(DomainSpec("slurm", ManualEscalation, High, ""))
      else None
    case 7 =>
      if type_ == "gpu_oom" then Some(DomainSpec("gpu_oom", SafeAutoRecover, Low, "fix-gpu-1"))
      else if type_ == "unknown" then Some(DomainSpec("unknown", ManualEscalation, High, ""))
      else None
    case 9 =>
      if type_ == "auth_cert" then Some(DomainSpec("auth_cert", ManualEscalation, High, ""))
      else if type_ == "disk_full" then Some(DomainSpec("disk_full", ManualEscalation, High, ""))
      else if type_ == "traceback" then Some(DomainSpec("traceback", DiagnoseOnly, Medium, ""))
      else None
    case 10 =>
      if type_ == "python_env" then Some(DomainSpec("python_env", ManualEscalation, High, "fix-python-1"))
      else if type_ == "model_path" then Some(DomainSpec("model_path", DiagnoseOnly, Medium, "fix-model-path-1"))
      else None
    case 11 =>
      if type_ == "config_path" then Some(DomainSpec("config_path", DiagnoseOnly, Medium, "fix-config-path-1"))
      else None
    case 12 =>
      if type_ == "network_port" then Some(DomainSpec("network_port", SafeAutoRecover, Low, "fix-network-1"))
      else if type_ == "config_error" then Some(DomainSpec("config_error", ManualEscalation, High, ""))
      else if type_ == "process_kill" then Some(DomainSpec("process_kill", ManualEscalation, High, ""))
      else None
    case 13 =>
      if type_ == "container_k8s" then Some(DomainSpec("container_k8s", ManualEscalation, High, ""))
      else if type_ == "host_resource" then Some(DomainSpec("host_resource", ManualEscalation, High, ""))
      else if type_ == "process_crash" then Some(DomainSpec("process_crash", ManualEscalation, High, ""))
      else if type_ == "sudo_required" then Some(DomainSpec("sudo_required", ManualEscalation, High, ""))
      else None
    case 15 =>
      if type_ == "worker_overload" then Some(DomainSpec("worker_overload", SafeAutoRecover, Low, "fix-worker-1"))
      else None
    case 17 =>
      if type_ == "permission_denied" then Some(DomainSpec("permission_denied", ManualEscalation, High, ""))
      else None
    case 18 =>
      if type_ == "cache_write_failed" then Some(DomainSpec("cache_write_failed", SafeAutoRecover, Low, "fix-cache-1"))
      else if type_ == "queue_backpressure"
          then Some(DomainSpec("queue_backpressure", SafeAutoRecover, Low, "fix-queue-backpressure-1"))
      else if type_ == "dependency_service" then Some(DomainSpec("dependency_service", ManualEscalation, High, ""))
      else None
    case 20 =>
      if type_ == "network_connectivity" then Some(DomainSpec("network_connectivity", ManualEscalation, High, ""))
      else None
    case 24 =>
      if type_ == "notification_sink_failed"
          then Some(DomainSpec("notification_sink_failed", SafeAutoRecover, Low, "fix-notification-sink-1"))
      else None
    case 27 =>
      if type_ == "optional_dependency_missing"
          then Some(DomainSpec("optional_dependency_missing", SafeAutoRecover, Low, "fix-optional-dep-1"))
      else if type_ == "optional_integration_failed"
          then Some(DomainSpec("optional_integration_failed", SafeAutoRecover, Low, "fix-optional-integration-1"))
      else if type_ == "observability_export_failed"
          then Some(DomainSpec("observability_export_failed", SafeAutoRecover, Low, "fix-observability-export-1"))
      else None
    case 28 =>
      if type_ == "optional_service_unavailable"
          then Some(DomainSpec("optional_service_unavailable", SafeAutoRecover, Low, "fix-optional-service-1"))
      else None
    case 29 =>
      if type_ == "optional_cache_backend_failed"
          then Some(DomainSpec("optional_cache_backend_failed", SafeAutoRecover, Low, "fix-cache-backend-1"))
      else None
    case _ => None
  }

  function EventOf(fixId: string): Option<string> {
    match |fixId|
    case 9 =>
      if fixId == "fix-gpu-1" then Some("gpu_oom")
      else None
    case 11 =>
      if fixId == "fix-cache-1" then Some("cache_write_failed")
      else None
    case 12 =>
      if fixId == "fix-worker-1" then Some("worker_overload")
      else None
    case 13 =>
      if fixId == "fix-network-1" then Some("network_port")
      else None
    case 18 =>
      if fixId == "fix-optional-dep-1" then Some("optional_dependency_missing")
      else None
    case 19 =>
      if fixId == "fix-cache-backend-1" then Some("optional_cache_backend_failed")
      else None
    case 22 =>
      if fixId == "fix-optional-service-1" then Some("optional_service_unavailable")
      else None
    case 23 =>
      if fixId == "fix-notification-sink-1" then Some("notification_sink_failed")
      else None
    case 24 =>
      if fixId == "fix-queue-backpressure-1" then Some("queue_backpressure")
      else None
    case 26 =>
      if fixId == "fix-optional-integration-1" then Some("optional_integration_failed")
      else if fixId == "fix-observability-export-1" then Some("observability_export_failed")
      else None
    case _ => None
  }

  ghost predicate SpecKnown(s: SafeSpec) {
    DomainOf(s.eventType) == Some(SafeDomain(s)) && EventOf(s.fixId) == Some(s.eventType) && s.fixId != ""
  }

  ghost predicate DomainKnown(d: DomainSpec) {
    DomainOf(d.eventType) == Some(d)
  }

  lemma NetworkSpecKnown()
    ensures SpecKnown(NetworkSpec())
  {
  }

  lemma GpuSpecKnown()
    ensures SpecKnown(GpuSpec())
  {
  }

  lemma CacheSpecKnown()
    ensures SpecKnown(CacheSpec())
  {
  }

  lemma OptionalDependencySpecKnown()
    ensures SpecKnown(OptionalDependencySpec())
  {
  }

  lemma OptionalIntegrationSpecKnown()
    ensures SpecKnown(OptionalIntegrationSpec())
  {
  }

  lemma CacheBackendSpecKnown()
    ensures SpecKnown(CacheBackendSpec())
  {
  }

  lemma OptionalServiceSpecKnown()
    ensures SpecKnown(OptionalServiceSpec())
  {
  }

  lemma NotificationSinkSpecKnown()
    ensures SpecKnown(NotificationSinkSpec())
  {
  }

  lemma ObservabilityExportSpecKnown()
    ensures SpecKnown(ObservabilityExportSpec())
  {
  }

  lemma QueueBackpressureSpecKnown()
    ensures SpecKnown(QueueBackpressureSpec())
  {
  }

  lemma WorkerSpecKnown()
    ensures SpecKnown(WorkerSpec())
  {
  }

  lemma ElevenKnown(a: SafeSpec, b: SafeSpec, c: SafeSpec, d: SafeSpec, e: SafeSpec, f: SafeSpec,
                    g: SafeSpec, h: SafeSpec, i: SafeSpec, j: SafeSpec, k: SafeSpec)
    requires SpecKnown(a) && SpecKnown(b) && SpecKnown(c) && SpecKnown(d) && SpecKnown(e) && SpecKnown(f)
    requires SpecKnown(g) && SpecKnown(h) && SpecKnown(i) && SpecKnown(j) && SpecKnown(k)
    ensures forall s | s in [a, b, c, d, e, f, g, h, i, j, k] :: SpecKnown(s)
  {
  }

  lemma SpecsKnown()
    ensures forall s | s in SafeSpecs() :: SpecKnown(s)
  {
    NetworkSpecKnown();
    GpuSpecKnown();
    CacheSpecKnown();
    OptionalDependencySpecKnown();
    OptionalIntegrationSpecKnown();
    CacheBackendSpecKnown();
    OptionalServiceSpecKnown();
    NotificationSinkSpecKnown();
    ObservabilityExportSpecKnown();
    QueueBackpressureSpecKnown();
    WorkerSpecKnown();
    ElevenKnown(NetworkSpec(), GpuSpec(), CacheSpec(), OptionalDependencySpec(),
                OptionalIntegrationSpec(), CacheBackendSpec(), OptionalServiceSpec(), NotificationSinkSpec(),
                ObservabilityExportSpec(), QueueBackpressureSpec(), WorkerSpec());
  }

  ghost predicate ManualAt(i: nat) {
    i < |ManualDomains()| ==> DomainKnown(ManualDomains()[i]) && ManualDomains()[i].layer == ManualEscalation
  }

  lemma FirstManualKnown()
    ensures ManualAt(0) && ManualAt(1) && ManualAt(2) && ManualAt(3) && ManualAt(4)
  {
  }

  lemma MoreManualKnown()
    ensures ManualAt(5) && ManualAt(6) && ManualAt(7) && ManualAt(8) && ManualAt(9)
  {
  }

  lemma LastManualKnown()
    ensures ManualAt(10) && ManualAt(11) && ManualAt(12) && ManualAt(13)
  {
  }

  lemma ManualKnown()
    ensures forall d | d in ManualDomains() :: DomainKnown(d) && d.layer == ManualEscalation
  {
    FirstManualKnown();
    MoreManualKnown();
    LastManualKnown();
    forall i: nat ensures ManualAt(i) {
    }
    forall d | d in ManualDomains() ensures DomainKnown(d) && d.layer == ManualEscalation {
      var i :| 0 <= i < |ManualDomains()| && ManualDomains()[i] == d;
      assert ManualAt(i);
    }
  }

  lemma DiagnoseKnown()
    ensures forall d | d in DiagnoseDomains() :: DomainKnown(d) && d.layer == DiagnoseOnly
  {
  }

  lemma DomainsKnown(reg: Registry)
    requires reg.safe == SafeSpecs() && reg.manual == ManualDomains() && reg.diagnose == DiagnoseDomains()
    ensures forall d | d in Domains(reg) :: DomainKnown(d)
    ensures forall d | d in Domains(reg) && d.layer == SafeAutoRecover :: exists s ::
        s in SafeSpecs() && d == SafeDomain(s)
  {
    SpecsKnown();
    ManualKnown();
    DiagnoseKnown();
    forall d | d in SafeDomains(reg.safe)
      ensures DomainKnown(d) && exists s :: s in SafeSpecs() && d == SafeDomain(s)
    {
      var i :| 0 <= i < |SafeDomains(reg.safe)| && SafeDomains(reg.safe)[i] == d;
      assert reg.safe[i] in SafeSpecs();
    }
  }

  /** Each event type has one domain in the shipped tables, whatever the order of the entries. */
  lemma DomainIsUnique(reg: Registry, d: DomainSpec)
    requires reg.safe == SafeSpecs() && reg.manual == ManualDomains() && reg.diagnose == DiagnoseDomains()
    requires d in Domains(reg)
    ensures DomainFor(reg, d.eventType) == Some(d)
  {
    DomainsKnown(reg);
    var found := DomainFor(reg, d.eventType);
    if found.Some? {
      assert DomainKnown(found.value) && DomainKnown(d);
    }
  }

  lemma SpecIsUnique(reg: Registry, s: SafeSpec)
    requires reg.safe == SafeSpecs() && s in SafeSpecs()
    ensures SpecByEvent(reg.safe, s.eventType).Some? && SpecByEvent(reg.safe, s.eventType).value.fixId == s.fixId
    ensures SpecByFix(reg.safe, s.fixId).Some? && SpecByFix(reg.safe, s.fixId).value.eventType == s.eventType
  {
    SpecsKnown();
    assert SpecKnown(s);
    var byEvent, byFix := SpecByEvent(reg.safe, s.eventType), SpecByFix(reg.safe, s.fixId);
    assert byEvent.Some? ==> SpecKnown(byEvent.value);
    assert byFix.Some? ==> SpecKnown(byFix.value);
  }

  lemma SafeDomainListed(reg: Registry, s: SafeSpec)
    requires s in reg.safe
    ensures SafeDomain(s) in Domains(reg)
  {
    var i :| 0 <= i < |reg.safe| && reg.safe[i] == s;
    assert SafeDomains(reg.safe)[i] == SafeDomain(s);
    assert Domains(reg)[i] == SafeDomain(s);
  }

  lemma UnknownDomain()
    ensures DomainOf("unknown").Some? && DomainOf("unknown").value.layer == ManualEscalation
  {
  }

  lemma UnknownIsManual(reg: Registry)
    requires reg.safe == SafeSpecs() && reg.manual == ManualDomains() && reg.diagnose == DiagnoseDomains()
    ensures !RecoversUnknown(reg)
  {
    DomainsKnown(reg);
    UnknownDomain();
    var found := DomainFor(reg, "unknown");
    if found.Some? {
      assert DomainKnown(found.value);
    }
  }

  /**
   The shipped tables grant recovery to exactly the event types of the safe specifications, each with its own fix,
   and never to a manual, a diagnosed or an unregistered one. This does not depend on the descriptions, the forbidden
   actions or the ambiguity rules.
   */
  lemma ShippedGrantsIff(descriptions: map<string, string>, forbidden: seq<string>, ambiguity: seq<AmbiguityRule>,
                         allowNote: seq<string>, eventType: string)
    ensures var reg := Shipped(descriptions, forbidden, ambiguity, allowNote);
      && (RegistryGrants(reg, eventType) <==> exists s :: s in SafeSpecs() && s.eventType == eventType)
      && (forall s | s in SafeSpecs() && s.eventType == eventType :: FixForEvent(reg, eventType) == s.fixId)
  {
    var reg := Shipped(descriptions, forbidden, ambiguity, allowNote);
    UnknownIsManual(reg);
    DomainsKnown(reg);
    SpecsKnown();
    forall s | s in SafeSpecs() && s.eventType == eventType
      ensures RegistryGrants(reg, eventType) && FixForEvent(reg, eventType) == s.fixId
    {
      assert SpecKnown(s);
      SafeDomainListed(reg, s);
      DomainIsUnique(reg, SafeDomain(s));
      SpecIsUnique(reg, s);
    }
  }

  /** No event of a manual or a diagnosed type is ever eligible, whatever the project and the evidence. */
  lemma ShippedManualNeverEligible(descriptions: map<string, string>, forbidden: seq<string>,
                                   ambiguity: seq<AmbiguityRule>,
                                   allowNote: seq<string>, host: Host, project: Project, event: Event, d: DomainSpec)
    requires d in ManualDomains() + DiagnoseDomains() && d.eventType == event.eventType
    ensures !Eligible(Shipped(descriptions, forbidden, ambiguity, allowNote), host, project, event)
  {
    var reg := Shipped(descriptions, forbidden, ambiguity, allowNote);
    ManualKnown();
    DiagnoseKnown();
    DomainIsUnique(reg, d);
  }
}
