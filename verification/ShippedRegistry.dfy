/** The table that ships with the system, and the proof that its entries do not contradict each other. */
module ShippedRegistry {
  import opened Wrappers
  import opened ConfigTree
  import opened Semantics
  import opened Registry
  import opened Executor
  import opened ExecutorTheorems

  function Off1(key: string): FieldCandidate {
    FieldCandidate([key], Bool(false), DisableBool)
  }

  function Off2(top: string, key: string): FieldCandidate {
    FieldCandidate([top, key], Bool(false), DisableBool)
  }

  function Off3(top: string, middle: string, key: string): FieldCandidate {
    FieldCandidate([top, middle, key], Bool(false), DisableBool)
  }

  function Low1(key: string, target: int): FieldCandidate {
    FieldCandidate([key], Int(target), LowerInt)
  }

  function Low2(top: string, key: string, target: int): FieldCandidate {
    FieldCandidate([top, key], Int(target), LowerInt)
  }

  function Downgrade2(top: string, key: string, target: string): FieldCandidate {
    FieldCandidate([top, key], Str(target), SafeEnumDowngrade)
  }

  function NetworkSpec(): SafeSpec {
    SafeSpec("network_port", "fix-network-1", "config.json", [
        FieldCandidate(["metrics_port"], Int(9101), PortAvailable)])
  }

  function GpuSpec(): SafeSpec {
    SafeSpec("gpu_oom", "fix-gpu-1", "config.json", [
        Low1("batch_size", 4),
        Low1("train_batch_size", 4),
        Low1("per_device_train_batch_size", 4),
        Low1("samples_per_gpu", 4),
        Low2("training", "batch_size", 4),
        Low2("model", "batch_size", 4)])
  }

  function CacheSpec(): SafeSpec {
    SafeSpec("cache_write_failed", "fix-cache-1", "config.json", [
        Off1("cache_enabled"),
        Off1("feature_cache_enabled"),
        Off2("cache", "write_enabled"),
        Off1("simulate_cache_write_failed"),
        Off1("simulate_disk_full")])
  }

  function OptionalDependencySpec(): SafeSpec {
    SafeSpec("optional_dependency_missing", "fix-optional-dep-1", "config.json", [
        Off1("optional_dependency_enabled"),
        Off3("optional_dependencies", "internal_risk_sdk", "enabled"),
        Off3("plugins", "internal_risk_sdk", "enabled"),
        Off1("risk_sdk_enabled"),
        Off1("simulate_python_env_mismatch")])
  }

  function OptionalIntegrationSpec(): SafeSpec {
    SafeSpec("optional_integration_failed", "fix-optional-integration-1", "config.json", [
        Off1("optional_webhook_enabled"),
        Off1("risk_sdk_enabled"),
        Off1("enrichment_client_enabled"),
        Off3("optional_integrations", "risk_sdk", "enabled"),
        Off3("optional_integrations", "enrichment", "enabled"),
        Off1("simulate_optional_integration_failed")])
  }

  function CacheBackendSpec(): SafeSpec {
    SafeSpec("optional_cache_backend_failed", "fix-cache-backend-1", "config.json", [
        Downgrade2("cache", "backend", "memory"),
        Downgrade2("cache", "mode", "memory"),
        Off2("cache", "redis_enabled"),
        Off2("cache", "write_enabled"),
        Off1("feature_cache_enabled"),
        Off1("simulate_optional_cache_backend_failed")])
  }

  function OptionalServiceSpec(): SafeSpec {
    SafeSpec("optional_service_unavailable", "fix-optional-service-1", "config.json", [
        Off3("optional_services", "enrichment", "enabled"),
        Off3("optional_services", "recommendation", "enabled"),
        Off3("optional_services", "risk_scoring", "enabled"),
        Off1("enrichment_enabled"),
        Off1("recommendation_enabled"),
        Off1("external_risk_scoring_enabled"),
        Off1("simulate_optional_service_unavailable")])
  }

  function NotificationSinkSpec(): SafeSpec {
    SafeSpec("notification_sink_failed", "fix-notification-sink-1", "config.json", [
        Off2("notification", "webhook_enabled"),
        Off3("notifications", "webhook", "enabled"),
        Off2("notification", "remote_sink_enabled"),
        Off2("notification_sink", "webhook_enabled"),
        Off1("simulate_notification_sink_failed")])
  }

  function ObservabilityExportSpec(): SafeSpec {
    SafeSpec("observability_export_failed", "fix-observability-export-1", "config.json", [
        Downgrade2("observability", "exporter_mode", "local"),
        Downgrade2("observability", "metrics_sink", "file"),
        Downgrade2("observability", "tracing_sink", "console"),
        Off2("observability", "remote_exporter_enabled"),
        Off2("metrics", "remote_exporter_enabled"),
        Off2("tracing", "remote_exporter_enabled"),
        Off1("simulate_observability_export_failed")])
  }

  function QueueBackpressureSpec(): SafeSpec {
    SafeSpec("queue_backpressure", "fix-queue-backpressure-1", "config.json", [
        Low1("prefetch_count", 2),
        Low1("max_inflight", 10),
        Low1("consumer_workers", 2),
        Low2("queue", "prefetch_count", 2),
        Low2("queue", "max_inflight", 10),
        Low2("queue", "consumer_workers", 2)])
  }

  function WorkerSpec(): SafeSpec {
    SafeSpec("worker_overload", "fix-worker-1", "config.json", [
        Low1("worker_concurrency", 2),
        Low1("workers", 2),
        Low1("max_workers", 2),
        Low1("consumer_workers", 2),
        Low2("worker", "concurrency", 2),
        Low2("server", "workers", 2)])
  }

  function SafeSpecs(): seq<SafeSpec> {
    [NetworkSpec(), GpuSpec(), CacheSpec(), OptionalDependencySpec(),
      OptionalIntegrationSpec(), CacheBackendSpec(), OptionalServiceSpec(), NotificationSinkSpec(),
      ObservabilityExportSpec(), QueueBackpressureSpec(), WorkerSpec()]
  }

  function ManualDomains(): seq<DomainSpec> {
    [
      DomainSpec("auth_cert", ManualEscalation, High, ""),
      DomainSpec("config_error", ManualEscalation, High, ""),
      DomainSpec("container_k8s", ManualEscalation, High, ""),
      DomainSpec("dependency_service", ManualEscalation, High, ""),
      DomainSpec("disk_full", ManualEscalation, High, ""),
      DomainSpec("host_resource", ManualEscalation, High, ""),
      DomainSpec("network_connectivity", ManualEscalation, High, ""),
      DomainSpec("permission_denied", ManualEscalation, High, ""),
      DomainSpec("process_crash", ManualEscalation, High, ""),
      DomainSpec("process_kill", ManualEscalation, High, ""),
      DomainSpec("python_env", ManualEscalation, High, "fix-python-1"),
      DomainSpec("slurm", ManualEscalation, High, ""),
      DomainSpec("sudo_required", ManualEscalation, High, ""),
      DomainSpec("unknown", ManualEscalation, High, "")
    ]
  }

  function DiagnoseDomains(): seq<DomainSpec> {
    [
      DomainSpec("config_path", DiagnoseOnly, Medium, "fix-config-path-1"),
      DomainSpec("model_path", DiagnoseOnly, Medium, "fix-model-path-1"),
      DomainSpec("traceback", DiagnoseOnly, Medium, "")
    ]
  }

  function LegacyFixes(): LegacyTable {
    map[
      "fix-gpu-2" := [(["precision"], Str("bf16")), (["gradient_checkpointing"], Bool(true))],
      "fix-disk-1" := [(["simulate_disk_full"], Bool(false))],
      "fix-python-1" := [(["simulate_python_env_mismatch"], Bool(false))]
    ]
  }

  lemma ShippedHasGpuFix()
    ensures HasGpuFix(LegacyFixes())
  {
  }

  /** The shipped tables, with any descriptions, forbidden actions, ambiguity rules and allowlist texts. */
  function Shipped(descriptions: map<string, string>, forbidden: seq<string>, ambiguity: seq<AmbiguityRule>,
                   allowNote: seq<string>): Registry {
    Registry(SafeSpecs(), ManualDomains(), DiagnoseDomains(), descriptions, forbidden, ambiguity, allowNote)
  }

  // The certificate: one target for each registered path, found by length first so that few names are compared.

  function TopTarget(key: string): Option<Json> {
    match |key|
    case 7 => if key == "workers" then Some(Int(2)) else None
    case 10 => if key == "batch_size" then Some(Int(4)) else None
    case 11 => if key == "max_workers" then Some(Int(2)) else None
    case 12 =>
      if key == "metrics_port" then Some(Int(9101))
      else if key == "max_inflight" then Some(Int(10))
      else None
    case 13 => if key == "cache_enabled" then Some(Bool(false)) else None
    case 14 => if key == "prefetch_count" then Some(Int(2)) else None
    case 15 => if key == "samples_per_gpu" then Some(Int(4)) else None
    case 16 =>
      if key == "train_batch_size" then Some(Int(4))
      else if key == "risk_sdk_enabled" then Some(Bool(false))
      else if key == "consumer_workers" then Some(Int(2))
      else None
    case 18 =>
      if key == "simulate_disk_full" then Some(Bool(false))
      else if key == "enrichment_enabled" then Some(Bool(false))
      else if key == "worker_concurrency" then Some(Int(2))
      else None
    case 21 => if key == "feature_cache_enabled" then Some(Bool(false)) else None
    case 22 => if key == "recommendation_enabled" then Some(Bool(false)) else None
    case 24 => if key == "optional_webhook_enabled" then Some(Bool(false)) else None
    case 25 => if key == "enrichment_client_enabled" then Some(Bool(false)) else None
    case 27 =>
      if key == "per_device_train_batch_size" then Some(Int(4))
      else if key == "simulate_cache_write_failed" then Some(Bool(false))
      else if key == "optional_dependency_enabled" then Some(Bool(false))
      else None
    case 28 => if key == "simulate_python_env_mismatch" then Some(Bool(false)) else None
    case 29 => if key == "external_risk_scoring_enabled" then Some(Bool(false)) else None
    case 33 => if key == "simulate_notification_sink_failed" then Some(Bool(false)) else None
    case 36 =>
      if key == "simulate_optional_integration_failed" then Some(Bool(false))
      else if key == "simulate_observability_export_failed" then Some(Bool(false))
      else None
    case 37 => if key == "simulate_optional_service_unavailable" then Some(Bool(false)) else None
    case 38 => if key == "simulate_optional_cache_backend_failed" then Some(Bool(false)) else None
    case _ => None
  }

  function SubTarget(top: string, key: string): Option<Json> {
    match |top|
    case 5 =>
      if top == "model" then (if key == "batch_size" then Some(Int(4)) else None) else
      if top == "cache" then (
          if key == "write_enabled" || key == "redis_enabled" then Some(Bool(false))
          else if key == "backend" || key == "mode" then Some(Str("memory"))
          else None) else
      if top == "queue" then (
          if key == "prefetch_count" || key == "consumer_workers" then Some(Int(2))
          else if key == "max_inflight" then Some(Int(10))
          else None) else None
    case 6 =>
      if top == "worker" then (if key == "concurrency" then Some(Int(2)) else None) else
      if top == "server" then (if key == "workers" then Some(Int(2)) else None) else None
    case 7 =>
      if top == "metrics" then (if key == "remote_exporter_enabled" then Some(Bool(false)) else None) else
      if top == "tracing" then (if key == "remote_exporter_enabled" then Some(Bool(false)) else None) else None
    case 8 =>
      if top == "training" then (if key == "batch_size" then Some(Int(4)) else None) else None
    case 12 =>
      if top == "notification" then (
          if key == "webhook_enabled" || key == "remote_sink_enabled" then Some(Bool(false))
          else None) else None
    case 13 =>
      if top == "observability" then (
          if key == "exporter_mode" then Some(Str("local"))
          else if key == "metrics_sink" then Some(Str("file"))
          else if key == "tracing_sink" then Some(Str("console"))
          else if key == "remote_exporter_enabled" then Some(Bool(false))
          else None) else None
    case 17 =>
      if top == "notification_sink" then (if key == "webhook_enabled" then Some(Bool(false)) else None) else None
    case _ => None
  }

  function DeepTarget(key: string): Option<Json> {
    if key == "enabled" then Some(Bool(false)) else None
  }

  function TargetOf(path: Path): Option<Json> {
    if |path| == 1 then TopTarget(path[0])
    else if |path| == 2 then SubTarget(path[0], path[1])
    else if |path| == 3 then DeepTarget(path[2])
    else None
  }

  /** The certificate knows the candidate, and no field that contains the candidate's field is registered. */
  predicate Certified(c: FieldCandidate) {
    && TargetOf(c.path) == Some(c.target)
    && (|c.path| >= 2 ==> TopTarget(c.path[0]) == None)
    && (|c.path| >= 3 ==> SubTarget(c.path[0], c.path[1]) == None)
  }

  lemma {:induction false} CommonPrefixOrDiverge(p: Path, q: Path)
    requires p != q && !Diverge(p, q)
    ensures (|p| < |q| && p == q[..|p|]) || (|q| < |p| && q == p[..|q|])
  {
    if p != [] && q != [] {
      assert p == [p[0]] + p[1..] && q == [q[0]] + q[1..];
      CommonPrefixOrDiverge(p[1..], q[1..]);
    }
  }

  lemma ShorterUnknown(c: FieldCandidate, n: nat)
    requires Certified(c) && n < |c.path|
    ensures TargetOf(c.path[..n]) == None
  {
  }

  lemma CertifiedCompatible(a: FieldCandidate, b: FieldCandidate)
    requires Certified(a) && Certified(b)
    ensures Compatible(a, b)
  {
    if a.path != b.path && !Diverge(a.path, b.path) {
      CommonPrefixOrDiverge(a.path, b.path);
      ShorterUnknown(if |a.path| < |b.path| then b else a, if |a.path| < |b.path| then |a.path| else |b.path|);
    }
  }

  ghost predicate SpecCertified(s: SafeSpec) {
    forall c | c in s.candidates :: Certified(c)
  }

  lemma NetworkCertified()
    ensures forall c | c in NetworkSpec().candidates :: Certified(c)
  {
  }

  lemma GpuCertified()
    ensures forall c | c in GpuSpec().candidates :: Certified(c)
  {
  }

  lemma CacheCertified()
    ensures forall c | c in CacheSpec().candidates :: Certified(c)
  {
  }

  lemma OptionalDependencyCertified()
    ensures forall c | c in OptionalDependencySpec().candidates :: Certified(c)
  {
  }

  lemma OptionalIntegrationCertified()
    ensures forall c | c in OptionalIntegrationSpec().candidates :: Certified(c)
  {
  }

  lemma CacheBackendCertified()
    ensures forall c | c in CacheBackendSpec().candidates :: Certified(c)
  {
  }

  lemma OptionalServiceCertified()
    ensures forall c | c in OptionalServiceSpec().candidates :: Certified(c)
  {
  }

  lemma NotificationSinkCertified()
    ensures forall c | c in NotificationSinkSpec().candidates :: Certified(c)
  {
  }

  lemma ObservabilityExportCertified()
    ensures forall c | c in ObservabilityExportSpec().candidates :: Certified(c)
  {
  }

  lemma QueueBackpressureCertified()
    ensures forall c | c in QueueBackpressureSpec().candidates :: Certified(c)
  {
  }

  lemma WorkerCertified()
    ensures forall c | c in WorkerSpec().candidates :: Certified(c)
  {
  }

  lemma CertifiedConsistent(specs: seq<SafeSpec>)
    requires forall s | s in specs :: SpecCertified(s)
    ensures Consistent(specs)
  {
    forall s, t, a, b | s in specs && t in specs && s.configPath == t.configPath && a in s.candidates
        && b in t.candidates
      ensures Compatible(a, b)
    {
      assert SpecCertified(s) && SpecCertified(t);
      CertifiedCompatible(a, b);
    }
  }

  lemma ElevenCertified(a: SafeSpec, b: SafeSpec, c: SafeSpec, d: SafeSpec, e: SafeSpec, f: SafeSpec,
                        g: SafeSpec, h: SafeSpec, i: SafeSpec, j: SafeSpec, k: SafeSpec)
    requires SpecCertified(a) && SpecCertified(b) && SpecCertified(c) && SpecCertified(d)
    requires SpecCertified(e) && SpecCertified(f) && SpecCertified(g) && SpecCertified(h)
    requires SpecCertified(i) && SpecCertified(j) && SpecCertified(k)
    ensures forall s | s in [a, b, c, d, e, f, g, h, i, j, k] :: SpecCertified(s)
  {
  }

  /** The shipped table is consistent, so what is proved of every consistent registry holds of it. */
  lemma ShippedConsistent()
    ensures Consistent(SafeSpecs())
  {
    NetworkCertified();
    GpuCertified();
    CacheCertified();
    OptionalDependencyCertified();
    OptionalIntegrationCertified();
    CacheBackendCertified();
    OptionalServiceCertified();
    NotificationSinkCertified();
    ObservabilityExportCertified();
    QueueBackpressureCertified();
    WorkerCertified();
    ElevenCertified(NetworkSpec(), GpuSpec(), CacheSpec(), OptionalDependencySpec(), OptionalIntegrationSpec(),
                    CacheBackendSpec(), OptionalServiceSpec(), NotificationSinkSpec(), ObservabilityExportSpec(),
                     QueueBackpressureSpec(), WorkerSpec());
    CertifiedConsistent(SafeSpecs());
  }

  lemma EachTrimmed(spec: SafeSpec)
    requires spec.fixId != "" && !IsSpace(spec.fixId[0]) && !IsSpace(spec.fixId[|spec.fixId| - 1])
    ensures TrimmedIds([spec])
  {
    StripPlain(spec.fixId);
  }

  lemma ElevenTrimmed(a: SafeSpec, b: SafeSpec, c: SafeSpec, d: SafeSpec, e: SafeSpec, f: SafeSpec,
                      g: SafeSpec, h: SafeSpec, i: SafeSpec, j: SafeSpec, k: SafeSpec)
    requires TrimmedIds([a]) && TrimmedIds([b]) && TrimmedIds([c]) && TrimmedIds([d]) && TrimmedIds([e])
        && TrimmedIds([f])
    requires TrimmedIds([g]) && TrimmedIds([h]) && TrimmedIds([i]) && TrimmedIds([j]) && TrimmedIds([k])
    ensures TrimmedIds([a, b, c, d, e, f, g, h, i, j, k])
  {
    assert a in [a] && b in [b] && c in [c] && d in [d] && e in [e] && f in [f] && g in [g] && h in [h] && i in [i]
      && j in [j] && k in [k];
  }

  /** The shipped fix ids are what the executors look up, without any trimming. */
  lemma ShippedIdsTrimmed()
    ensures TrimmedIds(SafeSpecs())
  {
    EachTrimmed(NetworkSpec());
    EachTrimmed(GpuSpec());
    EachTrimmed(CacheSpec());
    EachTrimmed(OptionalDependencySpec());
    EachTrimmed(OptionalIntegrationSpec());
    EachTrimmed(CacheBackendSpec());
    EachTrimmed(OptionalServiceSpec());
    EachTrimmed(NotificationSinkSpec());
    EachTrimmed(ObservabilityExportSpec());
    EachTrimmed(QueueBackpressureSpec());
    EachTrimmed(WorkerSpec());
    ElevenTrimmed(NetworkSpec(), GpuSpec(), CacheSpec(), OptionalDependencySpec(), OptionalIntegrationSpec(),
                  CacheBackendSpec(),
                  OptionalServiceSpec(), NotificationSinkSpec(), ObservabilityExportSpec(), QueueBackpressureSpec(),
                  WorkerSpec());
  }
}
